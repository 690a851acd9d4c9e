/**
 * The buffered publisher: one channel per output category, each with a
 * topic, a retain flag and a bounded buffer of serialised messages.  While
 * the broker is connected a message is published at once; otherwise it is
 * buffered and the oldest entries are evicted down to the channel's limit.
 * After a (re)connection a drain pass is run every tick, shifting one message
 * off every buffer, until all buffers are empty.
 *
 * The broker client is reduced to a `connected` flag and the list of
 * publications it is asked to make.
 */
module Publisher {
  import opened Wrappers

  /** The output categories, in the declaration order of the channel table. */
  datatype Category =
    | ErrorChannel
    | StateChannel
    | RxChannel
    | AttributionChannel
    | SampleRequestIdChannel
    | InstrumentIdChannel

  const ChannelCount: nat := 6

  /** Position of a category in the channel table; the drain visits channels in this order. */
  function IndexOf(c: Category): (i: nat)
    ensures i < ChannelCount
  {
    match c
    case ErrorChannel => 0
    case StateChannel => 1
    case RxChannel => 2
    case AttributionChannel => 3
    case SampleRequestIdChannel => 4
    case InstrumentIdChannel => 5
  }

  datatype Channel = Channel(topic: string, retain: bool, buffer: seq<string>, limit: nat)

  /** One request made of the broker client: publish `payload` on `topic`. */
  datatype Publication = Publication(topic: string, payload: string, retain: bool)

  /**
   * The channel table, with every topic rooted at `root`: empty buffers, and
   * every channel but the error channel retained.
   */
  function MqttConfig(root: string): (r: seq<Channel>)
    ensures |r| == ChannelCount
    ensures forall j :: 0 <= j < |r| ==> r[j].buffer == [] && |root| <= |r[j].topic| && r[j].topic[..|root|] == root
    ensures forall j :: 0 <= j < |r| ==> (r[j].retain <==> j != IndexOf(ErrorChannel))
  {
    [ Channel(root + "/comm/error", false, [], 100),
      Channel(root + "/comm/state", true, [], 1),
      Channel(root + "/comm/rx", true, [], 20),
      Channel(root + "/attribution", true, [], 20),
      Channel(root + "/sampleRequestID", true, [], 0),
      Channel(root + "/instrumentID", true, [], 0) ]
  }

  /** Every buffer holds at most its channel's limit. */
  ghost predicate WithinLimits(chans: seq<Channel>) {
    forall j :: 0 <= j < |chans| ==> |chans[j].buffer| <= chans[j].limit
  }

  ghost predicate DistinctTopics(chans: seq<Channel>) {
    forall j, k :: 0 <= j < k < |chans| ==> chans[j].topic != chans[k].topic
  }

  function TopicsOf(chans: seq<Channel>): set<string> {
    set j | 0 <= j < |chans| :: chans[j].topic
  }

  lemma {:induction false} DistinctSuffixes(root: string, a: string, b: string)
    requires a != b
    ensures root + a != root + b
  {
    assert (root + a)[|root|..] == a;
    assert (root + b)[|root|..] == b;
  }

  /**
   * The table starts with empty buffers, within limits, with six distinct
   * topics; the sample-request-id and instrument-id channels cannot buffer.
   */
  lemma MqttConfigIsWellFormed(root: string)
    ensures |MqttConfig(root)| == ChannelCount
    ensures forall j :: 0 <= j < ChannelCount ==> MqttConfig(root)[j].buffer == []
    ensures WithinLimits(MqttConfig(root))
    ensures DistinctTopics(MqttConfig(root))
    ensures MqttConfig(root)[IndexOf(SampleRequestIdChannel)].limit == 0
    ensures MqttConfig(root)[IndexOf(InstrumentIdChannel)].limit == 0
  {
    var suffixes := ["/comm/error", "/comm/state", "/comm/rx", "/attribution", "/sampleRequestID", "/instrumentID"];
    forall j, k | 0 <= j < k < ChannelCount
      ensures MqttConfig(root)[j].topic != MqttConfig(root)[k].topic
    {
      assert MqttConfig(root)[j].topic == root + suffixes[j];
      assert MqttConfig(root)[k].topic == root + suffixes[k];
      assert suffixes[j] != suffixes[k] by {
        if |suffixes[j]| == |suffixes[k]| {
          assert suffixes[j][6] != suffixes[k][6];
        }
      }
      DistinctSuffixes(root, suffixes[j], suffixes[k]);
    }
  }

  function Min(a: int, b: int): int {
    if a <= b then a else b
  }

  /** The last `min(n, |s|)` elements of `s`, in their original order. */
  function KeepLast(s: seq<string>, n: nat): seq<string> {
    s[|s| - Min(|s|, n)..]
  }

  /** The eviction loop: shift from the front while the buffer is longer than `limit`. */
  function Shed(buffer: seq<string>, limit: nat): (r: seq<string>)
    ensures |r| == Min(|buffer|, limit)
    ensures r == buffer[|buffer| - |r|..]
    decreases |buffer|
  {
    if |buffer| > limit then
      var r := Shed(buffer[1..], limit);
      assert buffer[1..][|buffer| - 1 - |r|..] == buffer[|buffer| - |r|..];
      r
    else buffer
  }

  datatype Delivery = Delivery(channels: seq<Channel>, published: seq<Publication>)

  /**
   * `mqttSend` with an already serialised message: publish it when connected,
   * otherwise buffer it and evict the oldest entries down to the limit.
   */
  function Send(chans: seq<Channel>, i: nat, message: string, connected: bool): (d: Delivery)
    requires i < |chans|
    ensures |d.channels| == |chans|
    ensures connected ==> d.channels == chans
    ensures connected ==> d.published == [Publication(chans[i].topic, message, chans[i].retain)]
    ensures !connected ==> d.published == []
    ensures !connected ==> forall j :: 0 <= j < |chans| && j != i ==> d.channels[j] == chans[j]
    ensures !connected ==> d.channels[i] == chans[i].(buffer := KeepLast(chans[i].buffer + [message], chans[i].limit))
    ensures !connected ==> |d.channels[i].buffer| <= chans[i].limit
    ensures !connected ==> (message in d.channels[i].buffer <== chans[i].limit > 0)
  {
    var c := chans[i];
    if connected then Delivery(chans, [Publication(c.topic, message, c.retain)])
    else
      var kept := Shed(c.buffer + [message], c.limit);
      assert chans[i].limit > 0 ==> kept[|kept| - 1] == message;
      Delivery(chans[i := c.(buffer := kept)], [])
  }

  /** Sending never breaks the buffer bounds. */
  lemma SendKeepsWithinLimits(chans: seq<Channel>, i: nat, message: string, connected: bool)
    requires i < |chans| && WithinLimits(chans)
    ensures WithinLimits(Send(chans, i, message, connected).channels)
    ensures forall j :: 0 <= j < |chans| ==>
      Send(chans, i, message, connected).channels[j] == chans[j].(buffer := Send(chans, i, message, connected).channels[j].buffer)
  {
  }

  /** Several messages sent to one channel, in order. */
  function SendEach(chans: seq<Channel>, i: nat, messages: seq<string>, connected: bool): (d: Delivery)
    requires i < |chans|
    ensures |d.channels| == |chans|
    decreases |messages|
  {
    if |messages| == 0 then Delivery(chans, [])
    else
      var first := Send(chans, i, messages[0], connected);
      var rest := SendEach(first.channels, i, messages[1..], connected);
      Delivery(rest.channels, first.published + rest.published)
  }

  /**
   * While disconnected, after any run of sends a channel that respected its
   * limit holds exactly the most recent `limit` of its old entries followed
   * by the new messages, in their original order; nothing is published and
   * the other channels are untouched.
   */
  lemma DisconnectedSendsKeepMostRecent(chans: seq<Channel>, i: nat, messages: seq<string>)
    requires i < |chans| && |chans[i].buffer| <= chans[i].limit
    ensures var d := SendEach(chans, i, messages, false);
      && d.published == []
      && d.channels[i] == chans[i].(buffer := KeepLast(chans[i].buffer + messages, chans[i].limit))
      && forall j :: 0 <= j < |chans| && j != i ==> d.channels[j] == chans[j]
  {
    DisconnectedSendsFillOne(chans, i, messages);
    DisconnectedSendsTouchOnlyOne(chans, i, messages);
  }

  lemma {:induction false} DisconnectedSendsFillOne(chans: seq<Channel>, i: nat, messages: seq<string>)
    requires i < |chans| && |chans[i].buffer| <= chans[i].limit
    ensures var d := SendEach(chans, i, messages, false);
      && d.published == []
      && d.channels[i] == chans[i].(buffer := KeepLast(chans[i].buffer + messages, chans[i].limit))
    decreases |messages|
  {
    var c := chans[i];
    if |messages| == 0 {
      assert c.buffer + messages == c.buffer;
    } else {
      var first := Send(chans, i, messages[0], false);
      var b1 := KeepLast(c.buffer + [messages[0]], c.limit);
      assert first.channels[i] == c.(buffer := b1);
      DisconnectedSendsFillOne(first.channels, i, messages[1..]);
      var rest := SendEach(first.channels, i, messages[1..], false);
      assert rest.channels[i].buffer == KeepLast(b1 + messages[1..], c.limit);
      KeepLastAppend(c.buffer + [messages[0]], messages[1..], c.limit);
      ConsAppend(c.buffer, messages);
    }
  }

  lemma {:induction false} DisconnectedSendsTouchOnlyOne(chans: seq<Channel>, i: nat, messages: seq<string>)
    requires i < |chans|
    ensures forall j :: 0 <= j < |chans| && j != i ==> SendEach(chans, i, messages, false).channels[j] == chans[j]
    decreases |messages|
  {
    if |messages| > 0 {
      var first := Send(chans, i, messages[0], false);
      DisconnectedSendsTouchOnlyOne(first.channels, i, messages[1..]);
    }
  }

  lemma ConsAppend(s: seq<string>, t: seq<string>)
    requires |t| > 0
    ensures s + [t[0]] + t[1..] == s + t
  {
    assert t == [t[0]] + t[1..];
  }

  lemma {:induction false} KeepLastAppend(s: seq<string>, t: seq<string>, n: nat)
    ensures KeepLast(KeepLast(s, n) + t, n) == KeepLast(s + t, n)
  {
    var k := KeepLast(s, n);
    var lhs := KeepLast(k + t, n);
    var rhs := KeepLast(s + t, n);
    assert |lhs| == |rhs|;
    forall x | 0 <= x < |lhs| ensures lhs[x] == rhs[x] {
      var y := |k + t| - |lhs| + x;
      var z := |s + t| - |rhs| + x;
      if y >= |k| {
        assert lhs[x] == t[y - |k|];
        assert rhs[x] == t[z - |s|];
      } else {
        assert lhs[x] == k[y];
        assert k[y] == s[|s| - |k| + y];
      }
    }
  }
}
