/** The map from topic0 to event name: the built-in events and the configured ones. */
module TopicMaps {
  import opened Base
  import opened Permutations

  datatype EventName = SwapName | MintName | BurnName | CollectName

  /** The space characters of `strings.TrimSpace`. */
  predicate IsBlank(c: char) {
    var code := c as int;
    || 0x09 <= code <= 0x0D || 0x2000 <= code <= 0x200A
    || code in {0x20, 0x85, 0xA0, 0x1680, 0x2028, 0x2029, 0x202F, 0x205F, 0x3000}
  }

  function TrimLeft(s: string): string {
    if s != "" && IsBlank(s[0]) then TrimLeft(s[1..]) else s
  }

  function TrimRight(s: string): string {
    if s != "" && IsBlank(s[|s| - 1]) then TrimRight(s[..|s| - 1]) else s
  }

  function NormalizeEventName(name: string): Option<EventName> {
    match ToLower(TrimRight(TrimLeft(name)))
    case "swap" => Some(SwapName)
    case "mint" => Some(MintName)
    case "burn" => Some(BurnName)
    case "collect" => Some(CollectName)
    case _ => None
  }

  /** The topic0 of each built-in event, as lower-case hex text. */
  datatype Ids = Ids(swap: string, mint: string, burn: string, collect: string)

  function BuiltIn(ids: Ids): map<string, EventName> {
    map[ToLower(ids.swap) := SwapName, ToLower(ids.mint) := MintName,
        ToLower(ids.burn) := BurnName, ToLower(ids.collect) := CollectName]
  }

  /** The topic map after the configured entries `extra`, in the order they are visited. */
  function TopicMap(ids: Ids, extra: seq<(string, string)>): Option<map<string, EventName>> {
    if extra == [] then Some(BuiltIn(ids))
    else
      var (topic0, name) := extra[|extra| - 1];
      match (TopicMap(ids, extra[..|extra| - 1]), NormalizeEventName(name))
      case (Some(m), Some(event)) => Some(if topic0 == "" then m else m[ToLower(topic0) := event])
      case _ => None
  }

  lemma {:induction false} TopicMapFails(ids: Ids, extra: seq<(string, string)>, i: nat)
    requires i <= |extra| && TopicMap(ids, extra[..i]).None?
    ensures TopicMap(ids, extra).None?
  {
    if i < |extra| {
      assert extra[..|extra| - 1][..i] == extra[..i];
      TopicMapFails(ids, extra[..|extra| - 1], i);
    } else {
      assert extra[..i] == extra;
    }
  }

  method NewTopicMap(ids: Ids, extra: seq<(string, string)>) returns (r: Option<map<string, EventName>>)
    ensures r == TopicMap(ids, extra)
  {
    hide NormalizeEventName;
    hide BuiltIn;
    var topicToName := BuiltIn(ids);
    for i := 0 to |extra|
      invariant TopicMap(ids, extra[..i]) == Some(topicToName)
    {
      assert extra[..i + 1][..i] == extra[..i];
      var event := NormalizeEventName(extra[i].1);
      if event.None? {
        TopicMapFails(ids, extra, i + 1);
        return None;
      }
      if extra[i].0 == "" {
        continue;
      }
      topicToName := topicToName[ToLower(extra[i].0) := event.value];
    }
    assert extra[..|extra|] == extra;
    r := Some(topicToName);
  }

  /** The map is refused exactly when some configured name is not an event name. */
  lemma {:induction false} TopicMapAccepted(ids: Ids, extra: seq<(string, string)>)
    ensures TopicMap(ids, extra).Some? <==> forall i :: 0 <= i < |extra| ==> NormalizeEventName(extra[i].1).Some?
  {
    hide NormalizeEventName;
    hide BuiltIn;
    if extra != [] {
      var init := extra[..|extra| - 1];
      TopicMapAccepted(ids, init);
      assert forall i :: 0 <= i < |init| ==> init[i] == extra[i];
    }
  }

  /** Every topic has the name of its last configured entry, and the built-in one if it has none. */
  lemma {:induction false} TopicMapExact(ids: Ids, extra: seq<(string, string)>, topic: string, i: nat)
    requires TopicMap(ids, extra).Some? && i <= |extra|
    requires forall j :: i <= j < |extra| ==> !NamesTopic(extra[j], topic)
    ensures var m := TopicMap(ids, extra).value;
      && (i == 0 ==> (topic in m <==> topic in BuiltIn(ids)) && (topic in m ==> m[topic] == BuiltIn(ids)[topic]))
      && (i > 0 && NamesTopic(extra[i - 1], topic) ==>
            topic in m && Some(m[topic]) == NormalizeEventName(extra[i - 1].1))
  {
    hide NormalizeEventName;
    hide BuiltIn;
    if i < |extra| {
      TopicMapExact(ids, extra[..|extra| - 1], topic, i);
    }
  }

  predicate NamesTopic(entry: (string, string), topic: string) {
    entry.0 != "" && ToLower(entry.0) == topic
  }

  /** No two configured topics that differ in letter case only name different events. */
  ghost predicate Consistent(extra: seq<(string, string)>) {
    forall e, f :: e in extra && f in extra && e.0 != "" && f.0 != "" && ToLower(e.0) == ToLower(f.0) ==>
      NormalizeEventName(e.1) == NormalizeEventName(f.1)
  }

  lemma {:induction false} LastNaming(extra: seq<(string, string)>, topic: string, e: (string, string)) returns (i: nat)
    requires e in extra && NamesTopic(e, topic)
    ensures i < |extra| && NamesTopic(extra[i], topic)
    ensures forall j :: i < j < |extra| ==> !NamesTopic(extra[j], topic)
  {
    var init, last := extra[..|extra| - 1], extra[|extra| - 1];
    assert extra == init + [last];
    if NamesTopic(last, topic) {
      i := |extra| - 1;
    } else {
      i := LastNaming(init, topic, e);
    }
  }

  /** With consistent entries any of the entries for a topic gives its name. */
  lemma Lookup(ids: Ids, extra: seq<(string, string)>, topic: string, e: (string, string))
    requires TopicMap(ids, extra).Some? && Consistent(extra) && e in extra && NamesTopic(e, topic)
    ensures topic in TopicMap(ids, extra).value
    ensures Some(TopicMap(ids, extra).value[topic]) == NormalizeEventName(e.1)
  {
    hide NormalizeEventName;
    hide BuiltIn;
    hide TopicMap;
    var i := LastNaming(extra, topic, e);
    TopicMapExact(ids, extra, topic, i + 1);
    assert extra[i] in extra;
  }

  /** The map built from `p` is the map built from `q`. */
  lemma ConsistentOrders(ids: Ids, p: seq<(string, string)>, q: seq<(string, string)>)
    requires TopicMap(ids, p).Some? && TopicMap(ids, q).Some? && Consistent(p) && multiset(p) == multiset(q)
    ensures TopicMap(ids, p) == TopicMap(ids, q)
  {
    hide NormalizeEventName;
    hide BuiltIn;
    hide TopicMap;
    SameMembers(p, q);
    var m, n := TopicMap(ids, p).value, TopicMap(ids, q).value;
    forall topic
      ensures topic in m <==> topic in n
      ensures topic in m ==> m[topic] == n[topic]
    {
      if e :| e in p && NamesTopic(e, topic) {
        Lookup(ids, p, topic, e);
        Lookup(ids, q, topic, e);
      } else {
        NoneNames(p, topic);
        NoneNames(q, topic);
        TopicMapExact(ids, p, topic, 0);
        TopicMapExact(ids, q, topic, 0);
      }
    }
    assert m == n;
  }

  lemma NoneNames(extra: seq<(string, string)>, topic: string)
    requires forall e :: e in extra ==> !NamesTopic(e, topic)
    ensures forall j :: 0 <= j < |extra| ==> !NamesTopic(extra[j], topic)
  {
    forall j | 0 <= j < |extra|
      ensures !NamesTopic(extra[j], topic)
    {
      assert extra[j] in extra;
    }
  }

  lemma AcceptedMembers(ids: Ids, p: seq<(string, string)>, q: seq<(string, string)>)
    requires multiset(p) == multiset(q)
    ensures TopicMap(ids, p).Some? <==> TopicMap(ids, q).Some?
  {
    hide NormalizeEventName;
    hide TopicMap;
    SameMembers(p, q);
    TopicMapAccepted(ids, p);
    TopicMapAccepted(ids, q);
    forall i | 0 <= i < |p|
      ensures p[i] in q
    {
      assert p[i] in p;
    }
    forall i | 0 <= i < |q|
      ensures q[i] in p
    {
      assert q[i] in q;
    }
  }

  /** The name of the last entry wins. */
  lemma LastWins(ids: Ids, rest: seq<(string, string)>, e: (string, string))
    requires TopicMap(ids, rest + [e]).Some? && e.0 != ""
    ensures ToLower(e.0) in TopicMap(ids, rest + [e]).value
    ensures Some(TopicMap(ids, rest + [e]).value[ToLower(e.0)]) == NormalizeEventName(e.1)
  {
    hide NormalizeEventName;
    hide BuiltIn;
    hide TopicMap;
    TopicMapExact(ids, rest + [e], ToLower(e.0), |rest| + 1);
  }

  /**
   * The configuration map is visited in a random order.  The result is the same in every order exactly when
   * some name is refused, or no two topics that differ in letter case only name different events.
   */
  lemma SameInEveryOrder(ids: Ids, extra: seq<(string, string)>)
    ensures (forall p: seq<(string, string)> :: multiset(p) == multiset(extra) ==>
               TopicMap(ids, p) == TopicMap(ids, extra))
      <==> (TopicMap(ids, extra).None? || Consistent(extra))
  {
    hide NormalizeEventName;
    hide BuiltIn;
    hide TopicMap;
    if TopicMap(ids, extra).None? || Consistent(extra) {
      forall p: seq<(string, string)> | multiset(p) == multiset(extra)
        ensures TopicMap(ids, p) == TopicMap(ids, extra)
      {
        AcceptedMembers(ids, p, extra);
        if TopicMap(ids, extra).Some? {
          ConsistentOrders(ids, extra, p);
        }
      }
    } else {
      var e, f :| e in extra && f in extra && e.0 != "" && f.0 != "" && ToLower(e.0) == ToLower(f.0) &&
        NormalizeEventName(e.1) != NormalizeEventName(f.1);
      var p := MoveLast(extra, e);
      var q := MoveLast(extra, f);
      AcceptedMembers(ids, p + [e], extra);
      AcceptedMembers(ids, q + [f], extra);
      LastWins(ids, p, e);
      LastWins(ids, q, f);
      assert TopicMap(ids, p + [e]) != TopicMap(ids, q + [f]);
    }
  }

  /** A configuration that is accepted, and names two events for one topic. */
  lemma OrderMatters(ids: Ids)
    ensures var extra := [("0xAA", "swap"), ("0xaa", "mint")];
      TopicMap(ids, extra).Some? && !Consistent(extra) &&
      exists p: seq<(string, string)> :: multiset(p) == multiset(extra) && TopicMap(ids, p) != TopicMap(ids, extra)
  {
    hide BuiltIn;
    hide TopicMap;
    hide NormalizeEventName;
    var extra := [("0xAA", "swap"), ("0xaa", "mint")];
    PlainNames();
    TopicMapAccepted(ids, extra);
    assert extra[0] in extra && extra[1] in extra;
    SameInEveryOrder(ids, extra);
  }

  lemma LowerText(s: string, t: string)
    requires |s| == |t| && forall i :: 0 <= i < |s| ==> t[i] == LowerChar(s[i])
    ensures ToLower(s) == t
  {
    hide ToLower;
  }

  lemma NotTrimmed(s: string)
    requires s != "" && !IsBlank(s[0]) && !IsBlank(s[|s| - 1])
    ensures TrimRight(TrimLeft(s)) == s
  {
  }

  lemma PlainNames()
    ensures NormalizeEventName("swap") == Some(SwapName) && NormalizeEventName("mint") == Some(MintName)
    ensures ToLower("0xAA") == ToLower("0xaa")
  {
    hide ToLower;
    hide TrimLeft;
    hide TrimRight;
    NotTrimmed("swap");
    NotTrimmed("mint");
    LowerText("swap", "swap");
    LowerText("mint", "mint");
    LowerText("0xAA", "0xaa");
    LowerText("0xaa", "0xaa");
  }

  // ----- The names and topics, written out

  lemma {:induction false} TrimLeftExact(s: string) returns (p: string)
    ensures s == p + TrimLeft(s) && AllBlank(p)
  {
    hide IsBlank;
    p := "";
    if s != "" && IsBlank(s[0]) {
      var rest := TrimLeftExact(s[1..]);
      p := [s[0]] + rest;
      assert s == [s[0]] + s[1..];
    }
  }

  lemma {:induction false} TrimRightExact(s: string) returns (q: string)
    ensures s == TrimRight(s) + q && AllBlank(q)
  {
    hide IsBlank;
    q := "";
    if s != "" && IsBlank(s[|s| - 1]) {
      var rest := TrimRightExact(s[..|s| - 1]);
      q := rest + [s[|s| - 1]];
      assert s == s[..|s| - 1] + [s[|s| - 1]];
    }
  }

  predicate AllBlank(s: string) {
    forall i :: 0 <= i < |s| ==> IsBlank(s[i])
  }

  lemma {:induction false} TrimLeftBlanks(p: string, s: string)
    requires AllBlank(p) && s != "" && !IsBlank(s[0])
    ensures TrimLeft(p + s) == s
  {
    hide IsBlank;
    if p == "" {
      assert p + s == s;
    } else {
      TrimLeftBlanks(p[1..], s);
      assert (p + s)[1..] == p[1..] + s;
    }
  }

  lemma {:induction false} TrimRightBlanks(s: string, q: string)
    requires AllBlank(q) && s != "" && !IsBlank(s[|s| - 1])
    ensures TrimRight(s + q) == s
  {
    hide IsBlank;
    if q == "" {
      assert s + q == s;
    } else {
      TrimRightBlanks(s, q[..|q| - 1]);
      assert (s + q)[..|s + q| - 1] == s + q[..|q| - 1];
    }
  }

  /** Spaces around a name are dropped, and only those. */
  lemma TrimBlanks(p: string, s: string, q: string)
    requires AllBlank(p) && AllBlank(q) && s != "" && !IsBlank(s[0]) && !IsBlank(s[|s| - 1])
    ensures TrimRight(TrimLeft(p + s + q)) == s
  {
    hide IsBlank;
    assert p + s + q == p + (s + q);
    TrimLeftBlanks(p, s + q);
    TrimRightBlanks(s, q);
  }

  lemma BlankLetters(c: char)
    requires 'a' <= LowerChar(c) <= 'z'
    ensures !IsBlank(c)
  {
  }

  /**
   * The four names, in any letter case and with any spaces around them, name their events.
   */
  lemma NamesInAnyCase(p: string, name: string, q: string)
    requires AllBlank(p) && AllBlank(q) && ToLower(name) in ["swap", "mint", "burn", "collect"]
    ensures NormalizeEventName(p + name + q) ==
      if ToLower(name) == "swap" then Some(SwapName)
      else if ToLower(name) == "mint" then Some(MintName)
      else if ToLower(name) == "burn" then Some(BurnName)
      else Some(CollectName)
  {
    hide ToLower;
    hide IsBlank;
    hide TrimLeft;
    hide TrimRight;
    var low := ToLower(name);
    assert |name| == |low| > 0;
    assert 'a' <= low[0] <= 'z' && 'a' <= low[|low| - 1] <= 'z';
    BlankLetters(name[0]);
    BlankLetters(name[|name| - 1]);
    TrimBlanks(p, name, q);
  }

  const BLANKS: string :=
    "\t\n\U{B}\U{C}\r \U{85}\U{A0}\U{1680}\U{2000}\U{2001}\U{2002}\U{2003}\U{2004}\U{2005}\U{2006}\U{2007}\U{2008}" +
    "\U{2009}\U{200A}\U{2028}\U{2029}\U{202F}\U{205F}\U{3000}"

  /** The spaces that are dropped, one by one. */
  lemma BlanksListed(c: char)
    ensures IsBlank(c) <==> c in BLANKS
  {
    assert |BLANKS| == 25;
  }

  lemma TrimParts(s: string) returns (p: string, q: string)
    ensures s == p + TrimRight(TrimLeft(s)) + q && AllBlank(p) && AllBlank(q)
  {
    hide AllBlank;
    p := TrimLeftExact(s);
    q := TrimRightExact(TrimLeft(s));
    hide TrimLeft;
    hide TrimRight;
    assert p + (TrimRight(TrimLeft(s)) + q) == p + TrimRight(TrimLeft(s)) + q;
  }

  lemma NamesListed(s: string)
    ensures NormalizeEventName(s).Some? ==>
      ToLower(TrimRight(TrimLeft(s))) in ["swap", "mint", "burn", "collect"]
  {
    hide ToLower;
    hide TrimLeft;
    hide TrimRight;
  }

  /** No other text names an event: what is accepted is one of the four names between spaces. */
  lemma NamesExact(s: string)
    ensures NormalizeEventName(s).Some? ==>
      exists p, name, q :: s == p + name + q && AllBlank(p) && AllBlank(q)
        && ToLower(name) in ["swap", "mint", "burn", "collect"]
  {
    NamesListed(s);
    var p, q := TrimParts(s);
    hide NormalizeEventName;
    hide ToLower;
    hide AllBlank;
    hide TrimLeft;
    hide TrimRight;
    var name := TrimRight(TrimLeft(s));
    assert s == p + name + q;
  }

  /** Without configured topics each event has its own topic, if the four differ in more than letter case. */
  lemma BuiltInTopics(swap: string, mint: string, burn: string, collect: string)
    requires ToLower(swap) != ToLower(mint) && ToLower(swap) != ToLower(burn) && ToLower(swap) != ToLower(collect)
    requires ToLower(mint) != ToLower(burn) && ToLower(mint) != ToLower(collect) && ToLower(burn) != ToLower(collect)
    ensures TopicMap(Ids(swap, mint, burn, collect), []) ==
      Some(map[ToLower(swap) := SwapName, ToLower(mint) := MintName,
               ToLower(burn) := BurnName, ToLower(collect) := CollectName])
  {
    hide ToLower;
  }

  /** An entry without a topic adds nothing, but its name must still be one of the four. */
  lemma EmptyTopic(ids: Ids, extra: seq<(string, string)>, name: string)
    ensures TopicMap(ids, extra + [("", name)]) ==
      if NormalizeEventName(name).Some? then TopicMap(ids, extra) else None
  {
    hide NormalizeEventName;
    hide BuiltIn;
    assert (extra + [("", name)])[..|extra|] == extra;
  }
}
