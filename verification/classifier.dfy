/**
 * The rx handler of the bridge: every cleaned-up line is forwarded on the rx
 * channel, then at most one derived message follows, chosen by the first
 * rule that matches: a group id, an instrument id (`CK` prefix), or a JSON
 * object whose `type` is `"sample"`.
 *
 * `JSON.parse` is a parameter (`parse`), answering None where it would throw.
 */
module Classifier {
  import opened Wrappers
  import opened IntermecScanner
  import opened Publisher

  /** A parsed JSON value; object members keep their textual order, duplicates included. */
  datatype Json =
    | JNull
    | JBool(b: bool)
    | JNumber(n: real)
    | JString(s: string)
    | JArray(items: seq<Json>)
    | JObject(members: seq<(string, Json)>)

  /** Member `k` binds `key`, and no later member does. */
  ghost predicate LastBinding(members: seq<(string, Json)>, key: string, k: int) {
    && 0 <= k < |members|
    && members[k].0 == key
    && forall k' :: k < k' < |members| ==> members[k'].0 != key
  }

  /** The value of property `key` of a parsed object: the last duplicate wins, as in `JSON.parse`. */
  function Property(members: seq<(string, Json)>, key: string): (v: Option<Json>)
    ensures v.None? <==> forall k :: 0 <= k < |members| ==> members[k].0 != key
    ensures v.Some? ==> exists k :: LastBinding(members, key, k) && members[k].1 == v.value
    decreases |members|
  {
    var n := |members|;
    if n == 0 then None
    else if members[n - 1].0 == key then
      assert LastBinding(members, key, n - 1);
      Some(members[n - 1].1)
    else
      var v := Property(members[..n - 1], key);
      PropertyOfInit(members, members[..n - 1], key, v);
      v
  }

  /** The lookup over all members but the final one answers for all members when the final member has another key. */
  lemma PropertyOfInit(members: seq<(string, Json)>, init: seq<(string, Json)>, key: string, v: Option<Json>)
    requires |members| > 0 && init == members[..|members| - 1] && members[|members| - 1].0 != key
    requires v.None? <==> forall k :: 0 <= k < |init| ==> init[k].0 != key
    requires v.Some? ==> exists k :: LastBinding(init, key, k) && init[k].1 == v.value
    ensures v.None? <==> forall k :: 0 <= k < |members| ==> members[k].0 != key
    ensures v.Some? ==> exists k :: LastBinding(members, key, k) && members[k].1 == v.value
  {
    assert forall k :: 0 <= k < |init| ==> init[k] == members[k];
    if v.Some? {
      var k :| LastBinding(init, key, k) && init[k].1 == v.value;
      LastBindingOfInit(members, key, k);
    }
  }

  /** A last binding among all members but the final one stays last when the final member has another key. */
  lemma LastBindingOfInit(members: seq<(string, Json)>, key: string, k: int)
    requires |members| > 0 && members[|members| - 1].0 != key
    requires LastBinding(members[..|members| - 1], key, k)
    ensures LastBinding(members, key, k) && members[k] == members[..|members| - 1][k]
  {
  }

  /** Any two last bindings of a key are the same member: the lookup is determined. */
  lemma LastBindingIsUnique(members: seq<(string, Json)>, key: string, k1: int, k2: int)
    requires LastBinding(members, key, k1) && LastBinding(members, key, k2)
    ensures k1 == k2
  {
  }

  /** `{"type":"sample","type":"x"}` is not a sample request: the later `type` wins. */
  lemma DuplicateTypeLastWins()
    ensures Property([("type", JString("sample")), ("type", JString("x"))], "type") == Some(JString("x"))
  {
  }

  /** `hasJsonStructure`: the parse result when it is an object or an array, nothing otherwise. */
  function JsonStructure(parsed: Option<Json>): (r: Option<Json>)
    ensures r.Some? <==> parsed.Some? && (parsed.value.JObject? || parsed.value.JArray?)
    ensures r.Some? ==> r == parsed
  {
    match parsed
    case Some(JObject(_)) => parsed
    case Some(JArray(_)) => parsed
    case _ => None
  }

  /** A key's last binding determines the property lookup. */
  lemma PropertyIsLastBinding(members: seq<(string, Json)>, key: string, k: int)
    requires LastBinding(members, key, k)
    ensures Property(members, key) == Some(members[k].1)
  {
    var v := Property(members, key);
    var k' :| LastBinding(members, key, k') && members[k'].1 == v.value;
    LastBindingIsUnique(members, key, k, k');
  }

  /**
   * `structure.type === 'sample'`: only an object can carry the property,
   * and of several `type` members the last one decides.
   */
  predicate IsSampleRequest(structure: Option<Json>): (b: bool)
    ensures b <==> && structure.Some? && structure.value.JObject?
                   && exists k :: LastBinding(structure.value.members, "type", k)
                                  && structure.value.members[k].1 == JString("sample")
  {
    var b := && structure.Some?
             && structure.value.JObject?
             && Property(structure.value.members, "type") == Some(JString("sample"));
    assert structure.Some? && structure.value.JObject? ==>
      forall k | LastBinding(structure.value.members, "type", k) ::
        Property(structure.value.members, "type") == Some(structure.value.members[k].1) by {
      if structure.Some? && structure.value.JObject? {
        forall k | LastBinding(structure.value.members, "type", k)
          ensures Property(structure.value.members, "type") == Some(structure.value.members[k].1)
        {
          PropertyIsLastBinding(structure.value.members, "type", k);
        }
      }
    }
    b
  }

  /** `\w` of a non-Unicode JavaScript regular expression. */
  predicate IsWordChar(c: char) {
    ('a' <= c <= 'z') || ('A' <= c <= 'Z') || ('0' <= c <= '9') || c == '_'
  }

  /** The language of `^(\w\-\w+)$`: one word character, a hyphen, then one or more word characters. */
  ghost predicate IsGroupId(line: string) {
    && |line| >= 3
    && IsWordChar(line[0])
    && line[1] == '-'
    && forall k :: 2 <= k < |line| ==> IsWordChar(line[k])
  }

  /** Matches `\w+` against all of `s`, scanning left to right. */
  function AllWordChars(s: string): (b: bool)
    ensures b <==> forall k :: 0 <= k < |s| ==> IsWordChar(s[k])
  {
    if |s| == 0 then true
    else
      var b := IsWordChar(s[0]) && AllWordChars(s[1..]);
      assert forall k :: 1 <= k < |s| ==> s[1..][k - 1] == s[k];
      b
  }

  /**
   * `line.match(/^(\w\-\w+)$/)`: the first capture group (the whole line) on a
   * match, nothing otherwise.
   */
  function GroupIdMatch(line: string): (m: Option<string>)
    ensures m.Some? <==> IsGroupId(line)
    ensures m.Some? ==> m.value == line
  {
    if |line| >= 3 && IsWordChar(line[0]) && line[1] == '-' && AllWordChars(line[2..]) then
      assert forall k :: 2 <= k < |line| ==> line[2..][k - 2] == line[k];
      Some(line)
    else
      assert !IsGroupId(line) by {
        if |line| >= 3 && IsWordChar(line[0]) && line[1] == '-' {
          var k :| 0 <= k < |line[2..]| && !IsWordChar(line[2..][k]);
          assert line[k + 2] == line[2..][k];
        }
      }
      None
  }

  /** `line.match(/^CK/)`. */
  predicate StartsWithCk(line: string): (b: bool)
    ensures b <==> |line| >= 2 && line[..2] == "CK"
  {
    |line| >= 2 && line[0] == 'C' && line[1] == 'K'
  }

  /** The process-wide attribution record. */
  datatype Attribution = Attribution(gid: string, uid: string, name: string, utc: string)

  const InitialAttribution: Attribution := Attribution("N/A", "N/A", "N/A", "1970-01-01T00:00:00.000Z")

  /** A message handed to the publisher, before serialisation. */
  datatype Message =
    | EventMessage(event: Event)
    | AttributionMessage(record: Attribution)
    | JsonMessage(value: Json)

  datatype Outgoing = Outgoing(category: Category, message: Message)

  datatype Classified = Classified(attribution: Attribution, sends: seq<Outgoing>)

  /**
   * The rx handler for the event `RxEvent(utc, line)`.  The raw event is
   * always sent first; the derived message, if any, follows the precedence
   * group id, then `CK` prefix, then sample object.  Only a group id touches
   * the attribution record, and only its `gid` and `utc` fields.
   */
  function OnRx(attr: Attribution, utc: string, line: string, parse: string -> Option<Json>): (c: Classified)
    ensures 1 <= |c.sends| <= 2
    ensures c.sends[0] == Outgoing(RxChannel, EventMessage(RxEvent(utc, line)))
    ensures IsGroupId(line) ==> c.attribution == attr.(gid := line, utc := utc)
    ensures !IsGroupId(line) ==> c.attribution == attr
    ensures IsGroupId(line) <==> |c.sends| == 2 && c.sends[1] == Outgoing(AttributionChannel, AttributionMessage(c.attribution))
    ensures !IsGroupId(line) && StartsWithCk(line)
      <==> |c.sends| == 2 && c.sends[1] == Outgoing(InstrumentIdChannel, EventMessage(RxEvent(utc, line)))
    ensures !IsGroupId(line) && !StartsWithCk(line) && IsSampleRequest(JsonStructure(parse(line)))
      <==> |c.sends| == 2 && c.sends[1].category == SampleRequestIdChannel
    ensures |c.sends| == 2 && c.sends[1].category == SampleRequestIdChannel
      ==> parse(line).Some? && c.sends[1].message == JsonMessage(parse(line).value)
    ensures |c.sends| == 1
      <==> !IsGroupId(line) && !StartsWithCk(line) && !IsSampleRequest(JsonStructure(parse(line)))
  {
    var res := RxEvent(utc, line);
    var raw := Outgoing(RxChannel, EventMessage(res));
    var gidMatch := GroupIdMatch(line);
    var instrumentIdMatch := StartsWithCk(line);
    var sampleIdMatch := JsonStructure(parse(line));
    if gidMatch.Some? then
      var updated := attr.(gid := gidMatch.value, utc := utc);
      Classified(updated, [raw, Outgoing(AttributionChannel, AttributionMessage(updated))])
    else if instrumentIdMatch then
      Classified(attr, [raw, Outgoing(InstrumentIdChannel, EventMessage(res))])
    else if IsSampleRequest(sampleIdMatch) then
      Classified(attr, [raw, Outgoing(SampleRequestIdChannel, JsonMessage(sampleIdMatch.value))])
    else
      Classified(attr, [raw])
  }

  /** A group id has a hyphen where a `CK` prefix has a `K`: the two rules never compete. */
  lemma GroupIdAndCkPrefixAreDisjoint(line: string)
    ensures !(IsGroupId(line) && StartsWithCk(line))
  {
  }

  /**
   * The derived message of a group id or a `CK` line does not depend on what
   * the JSON parser makes of the line.
   */
  lemma ParseIrrelevantBeforeSampleRule(attr: Attribution, utc: string, line: string,
                                         parse1: string -> Option<Json>, parse2: string -> Option<Json>)
    requires IsGroupId(line) || StartsWithCk(line)
    ensures OnRx(attr, utc, line, parse1) == OnRx(attr, utc, line, parse2)
  {
  }

  /** A line starting with `{` or `[` is never a group id nor an instrument id. */
  lemma StructuredTextOnlyMatchesSampleRule(line: string)
    requires |line| > 0 && (line[0] == '{' || line[0] == '[')
    ensures !IsGroupId(line) && !StartsWithCk(line)
  {
  }

  /** `G-42` is a group id; `AB-1` is not: exactly one word character precedes the hyphen. */
  lemma GroupIdExamples()
    ensures GroupIdMatch("G-42") == Some("G-42")
    ensures GroupIdMatch("AB-1") == None
    ensures GroupIdMatch("G-") == None
  {
    assert IsGroupId("G-42") by {
      assert IsWordChar('4') && IsWordChar('2');
    }
    assert !IsGroupId("AB-1") by {
      assert "AB-1"[1] == 'B';
    }
  }
}
