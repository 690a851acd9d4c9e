/**
 * The drain of the buffered publisher (`mqttSendBuffered`): each tick shifts
 * one message off every channel's buffer, in table order, publishes it when
 * it is a non-empty string, and asks for another tick while some buffer is
 * still non-empty.  A tick that finds the broker disconnected does nothing.
 */
module Drain {
  import opened Wrappers
  import opened Publisher

  /** `Array.prototype.shift` seen from the array: the first entry, if any, is gone. */
  function Shift(b: seq<string>): seq<string> {
    if |b| == 0 then [] else b[1..]
  }

  /** What a tick publishes for one channel: its oldest entry, when that is a non-empty string (`if (msg)`). */
  function HeadPublication(c: Channel): seq<Publication> {
    if |c.buffer| > 0 && c.buffer[0] != "" then [Publication(c.topic, c.buffer[0], c.retain)] else []
  }

  datatype Pass = Pass(channels: seq<Channel>, published: seq<Publication>, drained: bool)

  /** The `forEach` over the channel table within one tick. */
  function ShiftEach(chans: seq<Channel>): (p: Pass)
    ensures |p.channels| == |chans|
    ensures forall j :: 0 <= j < |chans| ==> p.channels[j] == chans[j].(buffer := Shift(chans[j].buffer))
    ensures p.drained <==> forall j :: 0 <= j < |chans| ==> |chans[j].buffer| <= 1
    ensures forall q :: q in p.published ==> q.topic in TopicsOf(chans)
    decreases |chans|
  {
    if |chans| == 0 then Pass([], [], true)
    else
      var c := chans[0];
      var rest := ShiftEach(chans[1..]);
      TailTopics(chans, rest.published);
      ShiftEachCons(chans, rest.channels, rest.drained);
      Pass([c.(buffer := Shift(c.buffer))] + rest.channels,
           HeadPublication(c) + rest.published,
           |Shift(c.buffer)| == 0 && rest.drained)
  }

  lemma TailTopics(chans: seq<Channel>, pubs: seq<Publication>)
    requires |chans| > 0
    requires forall q :: q in pubs ==> q.topic in TopicsOf(chans[1..])
    ensures forall q :: q in pubs ==> q.topic in TopicsOf(chans)
    ensures forall q :: q in pubs ==> exists k :: 1 <= k < |chans| && chans[k].topic == q.topic
  {
    forall q | q in pubs
      ensures q.topic in TopicsOf(chans)
      ensures exists k :: 1 <= k < |chans| && chans[k].topic == q.topic
    {
      var k :| 0 <= k < |chans[1..]| && chans[1..][k].topic == q.topic;
      assert chans[k + 1].topic == q.topic;
    }
  }

  lemma ShiftEachCons(chans: seq<Channel>, restChannels: seq<Channel>, restDrained: bool)
    requires |chans| > 0 && |restChannels| == |chans| - 1
    requires forall j :: 0 <= j < |chans| - 1 ==> restChannels[j] == chans[1..][j].(buffer := Shift(chans[1..][j].buffer))
    requires restDrained <==> forall j :: 0 <= j < |chans| - 1 ==> |chans[1..][j].buffer| <= 1
    ensures var all := [chans[0].(buffer := Shift(chans[0].buffer))] + restChannels;
      forall j :: 0 <= j < |chans| ==> all[j] == chans[j].(buffer := Shift(chans[j].buffer))
    ensures (|Shift(chans[0].buffer)| == 0 && restDrained) <==> forall j :: 0 <= j < |chans| ==> |chans[j].buffer| <= 1
  {
    var all := [chans[0].(buffer := Shift(chans[0].buffer))] + restChannels;
    forall j | 1 <= j < |chans| ensures all[j] == chans[j].(buffer := Shift(chans[j].buffer)) {
      assert all[j] == restChannels[j - 1];
      assert chans[1..][j - 1] == chans[j];
    }
    if forall j :: 0 <= j < |chans| ==> |chans[j].buffer| <= 1 {
      forall j | 0 <= j < |chans| - 1 ensures |chans[1..][j].buffer| <= 1 {
        assert chans[1..][j] == chans[j + 1];
      }
    }
    if restDrained {
      forall j | 1 <= j < |chans| ensures |chans[j].buffer| <= 1 {
        assert chans[1..][j - 1] == chans[j];
      }
    }
  }

  datatype Tick = Tick(channels: seq<Channel>, published: seq<Publication>, rescheduled: bool)

  /**
   * One call of `mqttSendBuffered`.  Disconnected, it changes nothing and
   * schedules nothing.  Connected, every buffer loses exactly its oldest
   * entry, and another tick is scheduled exactly when some buffer had more
   * than one entry, that is, is still non-empty afterwards.
   */
  function DrainTick(chans: seq<Channel>, connected: bool): (t: Tick)
    ensures !connected ==> t == Tick(chans, [], false)
    ensures |t.channels| == |chans|
    ensures connected ==> forall j :: 0 <= j < |chans| ==> t.channels[j] == chans[j].(buffer := Shift(chans[j].buffer))
    ensures connected ==> (t.rescheduled <==> exists j :: 0 <= j < |chans| && |chans[j].buffer| > 1)
    ensures connected ==> (t.rescheduled <==> exists j :: 0 <= j < |chans| && t.channels[j].buffer != [])
  {
    if connected then
      var p := ShiftEach(chans);
      Tick(p.channels, p.published, !p.drained)
    else Tick(chans, [], false)
  }

  /** Draining never breaks the buffer bounds. */
  lemma DrainTickKeepsWithinLimits(chans: seq<Channel>, connected: bool)
    requires WithinLimits(chans)
    ensures WithinLimits(DrainTick(chans, connected).channels)
  {
  }

  function Max(a: int, b: int): int {
    if a <= b then b else a
  }

  /** Only publications whose topic is `topic`, in order. */
  function Select(pubs: seq<Publication>, topic: string): (r: seq<Publication>)
    ensures |r| <= |pubs|
    ensures forall k :: 0 <= k < |r| ==> r[k].topic == topic && r[k] in pubs
  {
    if |pubs| == 0 then []
    else (if pubs[0].topic == topic then [pubs[0]] else []) + Select(pubs[1..], topic)
  }

  lemma {:induction false} SelectAppend(a: seq<Publication>, b: seq<Publication>, topic: string)
    ensures Select(a + b, topic) == Select(a, topic) + Select(b, topic)
  {
    if |a| == 0 {
      assert a + b == b;
    } else {
      var ab := a + b;
      ConsAppend(a, b);
      SelectAppend(a[1..], b, topic);
      var head := if a[0].topic == topic then [a[0]] else [];
      assert Select(ab, topic) == head + Select(a[1..] + b, topic);
      assert Select(a, topic) == head + Select(a[1..], topic);
      ConcatAssoc(head, Select(a[1..], topic), Select(b, topic));
    }
  }

  lemma ConsAppend<T>(a: seq<T>, b: seq<T>)
    requires |a| > 0
    ensures (a + b)[0] == a[0] && (a + b)[1..] == a[1..] + b
  {
  }

  lemma ConcatAssoc<T>(a: seq<T>, b: seq<T>, c: seq<T>)
    ensures a + (b + c) == (a + b) + c
  {
  }

  lemma {:induction false} SelectAbsent(pubs: seq<Publication>, topic: string)
    requires forall q :: q in pubs ==> q.topic != topic
    ensures Select(pubs, topic) == []
  {
    if |pubs| > 0 {
      assert pubs[0] in pubs;
      SelectAbsent(pubs[1..], topic);
    }
  }

  /** The buffer of a channel, as the publications it stands for, oldest first. */
  function Pending(c: Channel): seq<Publication>
    decreases |c.buffer|
  {
    if |c.buffer| == 0 then []
    else [Publication(c.topic, c.buffer[0], c.retain)] + Pending(c.(buffer := c.buffer[1..]))
  }

  /** No buffer holds an empty string (serialised messages never are). */
  ghost predicate NoEmptyMessages(chans: seq<Channel>) {
    forall j, k :: 0 <= j < |chans| && 0 <= k < |chans[j].buffer| ==> chans[j].buffer[k] != ""
  }

  /**
   * With distinct topics and no empty messages, a tick publishes on each
   * channel's topic exactly that channel's oldest entry, or nothing when its
   * buffer is empty.
   */
  lemma {:induction false} ShiftEachPublishesHeads(chans: seq<Channel>)
    requires DistinctTopics(chans) && NoEmptyMessages(chans)
    ensures forall j :: 0 <= j < |chans| ==>
      Select(ShiftEach(chans).published, chans[j].topic) == OldestAsPublication(chans[j])
    decreases |chans|
  {
    if |chans| > 0 {
      ShiftEachPublishesHeads(chans[1..]);
      forall j | 0 <= j < |chans|
        ensures Select(ShiftEach(chans).published, chans[j].topic) == OldestAsPublication(chans[j])
      {
        if j == 0 {
          FirstChannelHead(chans);
        } else {
          LaterChannelHead(chans, j);
        }
      }
    }
  }

  /** The oldest entry of a channel as a publication, or nothing when its buffer is empty. */
  function OldestAsPublication(c: Channel): seq<Publication> {
    if |c.buffer| == 0 then [] else [Publication(c.topic, c.buffer[0], c.retain)]
  }

  lemma FirstChannelHead(chans: seq<Channel>)
    requires |chans| > 0 && DistinctTopics(chans) && NoEmptyMessages(chans)
    ensures Select(ShiftEach(chans).published, chans[0].topic) == OldestAsPublication(chans[0])
  {
    var c := chans[0];
    var rest := ShiftEach(chans[1..]);
    assert ShiftEach(chans).published == HeadPublication(c) + rest.published;
    SelectAppend(HeadPublication(c), rest.published, c.topic);
    TailTopics(chans, rest.published);
    SelectAbsent(rest.published, c.topic);
    assert |c.buffer| > 0 ==> c.buffer[0] != "";
    assert Select(HeadPublication(c), c.topic) == OldestAsPublication(c);
  }

  lemma LaterChannelHead(chans: seq<Channel>, j: nat)
    requires 0 < j < |chans| && DistinctTopics(chans)
    requires Select(ShiftEach(chans[1..]).published, chans[1..][j - 1].topic) == OldestAsPublication(chans[1..][j - 1])
    ensures Select(ShiftEach(chans).published, chans[j].topic) == OldestAsPublication(chans[j])
  {
    var c := chans[0];
    var rest := ShiftEach(chans[1..]);
    SelectAppend(HeadPublication(c), rest.published, chans[j].topic);
    assert chans[1..][j - 1] == chans[j];
    assert c.topic != chans[j].topic;
  }

  /** The longest buffer of the table. */
  function MaxLen(chans: seq<Channel>): (m: nat)
    ensures forall j :: 0 <= j < |chans| ==> |chans[j].buffer| <= m
    ensures |chans| > 0 ==> exists j :: 0 <= j < |chans| && |chans[j].buffer| == m
    ensures |chans| == 0 ==> m == 0
    decreases |chans|
  {
    if |chans| == 0 then 0
    else
      var rest := MaxLen(chans[1..]);
      assert forall j :: 1 <= j < |chans| ==> |chans[j].buffer| <= rest by {
        forall j | 1 <= j < |chans| ensures |chans[j].buffer| <= rest {
          assert chans[1..][j - 1] == chans[j];
        }
      }
      if |chans[0].buffer| >= rest then |chans[0].buffer|
      else
        var k :| 0 <= k < |chans[1..]| && |chans[1..][k].buffer| == rest;
        assert chans[k + 1] == chans[1..][k];
        rest
  }

  /** A tick shortens the longest buffer by one. */
  lemma ShiftLowersMaxLen(chans: seq<Channel>, after: seq<Channel>)
    requires |after| == |chans|
    requires forall j :: 0 <= j < |chans| ==> after[j].buffer == Shift(chans[j].buffer)
    ensures MaxLen(after) == if MaxLen(chans) == 0 then 0 else MaxLen(chans) - 1
  {
    if |chans| > 0 {
      var m := MaxLen(chans);
      var j :| 0 <= j < |chans| && |chans[j].buffer| == m;
      assert |after[j].buffer| == if m == 0 then 0 else m - 1;
      var k :| 0 <= k < |after| && |after[k].buffer| == MaxLen(after);
      assert |chans[k].buffer| <= m;
    }
  }

  lemma ShiftKeepsNoEmptyMessages(chans: seq<Channel>, after: seq<Channel>)
    requires NoEmptyMessages(chans)
    requires |after| == |chans|
    requires forall j :: 0 <= j < |chans| ==> after[j].buffer == Shift(chans[j].buffer)
    ensures NoEmptyMessages(after)
  {
    forall j, k | 0 <= j < |after| && 0 <= k < |after[j].buffer|
      ensures after[j].buffer[k] != ""
    {
      var b := chans[j].buffer;
      assert |b| > 0;
      assert after[j].buffer == b[1..];
      assert after[j].buffer[k] == b[k + 1];
    }
  }

  datatype DrainRun = DrainRun(channels: seq<Channel>, published: seq<Publication>, ticks: nat)

  /**
   * Ticks run back to back while the broker stays connected and nothing is
   * sent: the drain stops after `max(1, longest buffer)` ticks with every
   * buffer empty.
   */
  function DrainFully(chans: seq<Channel>): (r: DrainRun)
    ensures r.ticks == Max(1, MaxLen(chans))
    ensures |r.channels| == |chans|
    ensures forall j :: 0 <= j < |chans| ==> r.channels[j] == chans[j].(buffer := [])
    decreases MaxLen(chans)
  {
    var t := DrainTick(chans, true);
    if !t.rescheduled then DrainRun(t.channels, t.published, 1)
    else
      ShiftLowersMaxLen(chans, t.channels);
      var rest := DrainFully(t.channels);
      DrainRun(rest.channels, t.published + rest.published, rest.ticks + 1)
  }

  /** A channel's pending publications are its head followed by what a shift leaves. */
  lemma PendingAfterShift(c: Channel)
    ensures Pending(c) == OldestAsPublication(c) + Pending(c.(buffer := Shift(c.buffer)))
  {
  }

  /**
   * Draining publishes every buffered message exactly once, oldest first on
   * each channel's topic.
   */
  lemma {:induction false} DrainPublishesEachOnceOldestFirst(chans: seq<Channel>)
    requires DistinctTopics(chans) && NoEmptyMessages(chans)
    ensures forall j :: 0 <= j < |chans| ==> Select(DrainFully(chans).published, chans[j].topic) == Pending(chans[j])
    decreases MaxLen(chans)
  {
    var t := DrainTick(chans, true);
    var r := DrainFully(chans);
    ShiftEachPublishesHeads(chans);
    if !t.rescheduled {
      assert r.published == t.published;
      forall j | 0 <= j < |chans| ensures Select(r.published, chans[j].topic) == Pending(chans[j]) {
        PendingAfterShift(chans[j]);
        assert Shift(chans[j].buffer) == [];
      }
    } else {
      ShiftLowersMaxLen(chans, t.channels);
      ShiftKeepsNoEmptyMessages(chans, t.channels);
      assert DistinctTopics(t.channels);
      DrainPublishesEachOnceOldestFirst(t.channels);
      var rest := DrainFully(t.channels);
      assert r.published == t.published + rest.published;
      forall j | 0 <= j < |chans| ensures Select(r.published, chans[j].topic) == Pending(chans[j]) {
        SelectAppend(t.published, rest.published, chans[j].topic);
        PendingAfterShift(chans[j]);
        assert t.channels[j] == chans[j].(buffer := Shift(chans[j].buffer));
      }
    }
  }
}
