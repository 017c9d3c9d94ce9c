/** The websocket hub's topic index over live connections. */
module TopicIndex {

  /** A connection, known by its address. */
  datatype Conn = Conn(address: int)

  /** Joining and leaving of a connection with a topic; an empty topic means broadcasts only. */
  datatype Event = Join(conn: Conn, topic: string) | Leave(conn: Conn, topic: string)

  /** The plain set of joined pairs. */
  function Joined(events: seq<Event>): set<(Conn, string)> {
    if events == [] then {}
    else
      var before := Joined(events[..|events| - 1]);
      match events[|events| - 1]
      case Join(c, t) => before + {(c, t)}
      case Leave(c, t) => before - {(c, t)}
  }

  /** The connections whose last event was joining. */
  function Present(events: seq<Event>): set<Conn> {
    if events == [] then {}
    else
      var before := Present(events[..|events| - 1]);
      match events[|events| - 1]
      case Join(c, _) => before + {c}
      case Leave(c, _) => before - {c}
  }

  /** The connections of the joined pairs. */
  function Live(pairs: set<(Conn, string)>): set<Conn> {
    set p | p in pairs :: p.0
  }

  /** The index holds the joined pairs with a topic, split by topic, and no empty topic set. */
  ghost predicate Indexes(topics: map<string, set<Conn>>, pairs: set<(Conn, string)>) {
    && (forall t :: t in topics ==> t != "" && topics[t] != {})
    && (forall c, t :: t != "" ==> (Holds(topics, c, t) <==> (c, t) in pairs))
  }

  predicate Holds(topics: map<string, set<Conn>>, conn: Conn, topic: string) {
    topic in topics && conn in topics[topic]
  }

  function Add(topics: map<string, set<Conn>>, conn: Conn, topic: string): map<string, set<Conn>> {
    if topic == "" then topics
    else topics[topic := (if topic in topics then topics[topic] else {}) + {conn}]
  }

  function Remove(topics: map<string, set<Conn>>, conn: Conn, topic: string): map<string, set<Conn>> {
    if topic !in topics then topics
    else if topics[topic] - {conn} == {} then topics - {topic}
    else topics[topic := topics[topic] - {conn}]
  }

  lemma AddIndexes(topics: map<string, set<Conn>>, pairs: set<(Conn, string)>, conn: Conn, topic: string)
    requires Indexes(topics, pairs)
    ensures Indexes(Add(topics, conn, topic), pairs + {(conn, topic)})
  {
    forall c, t | t != ""
      ensures Holds(Add(topics, conn, topic), c, t) <==> (c, t) in pairs + {(conn, topic)}
    {
      assert Holds(topics, c, t) <==> (c, t) in pairs;
    }
  }

  lemma RemoveIndexes(topics: map<string, set<Conn>>, pairs: set<(Conn, string)>, conn: Conn, topic: string)
    requires Indexes(topics, pairs)
    ensures Indexes(Remove(topics, conn, topic), pairs - {(conn, topic)})
  {
    forall c, t | t != ""
      ensures Holds(Remove(topics, conn, topic), c, t) <==> (c, t) in pairs - {(conn, topic)}
    {
      assert Holds(topics, c, t) <==> (c, t) in pairs;
      if t == topic && topic in topics && c != conn {
        assert c in topics[topic] <==> c in topics[topic] - {conn};
      }
    }
  }

  lemma {:induction false} Next(events: seq<Event>, e: Event)
    ensures Joined(events + [e])
         == if e.Join? then Joined(events) + {(e.conn, e.topic)} else Joined(events) - {(e.conn, e.topic)}
    ensures Present(events + [e]) == if e.Join? then Present(events) + {e.conn} else Present(events) - {e.conn}
  {
    assert (events + [e])[..|events|] == events;
  }

  /** The connection joined the topic and has not left it since. */
  ghost predicate StillJoined(events: seq<Event>, conn: Conn, topic: string) {
    exists i :: 0 <= i < |events| && events[i] == Join(conn, topic)
      && forall j :: i < j < |events| ==> events[j] != Leave(conn, topic)
  }

  /** The last event of the connection, with whatever topic, is joining. */
  ghost predicate JoinedLast(events: seq<Event>, conn: Conn) {
    exists i :: 0 <= i < |events| && events[i].Join? && events[i].conn == conn
      && forall j :: i < j < |events| ==> events[j].conn != conn
  }

  /** The joined pairs and the connections present, as the events give them. */
  lemma {:induction false} JoinedExactly(events: seq<Event>, conn: Conn, topic: string)
    ensures (conn, topic) in Joined(events) <==> StillJoined(events, conn, topic)
    ensures conn in Present(events) <==> JoinedLast(events, conn)
  {
    hide StillJoined, JoinedLast;
    if events == [] {
      NeverJoined(conn, topic);
    } else {
      var front, e := events[..|events| - 1], events[|events| - 1];
      assert events == front + [e];
      JoinedExactly(front, conn, topic);
      StillJoinedSnoc(front, e, conn, topic);
      JoinedLastSnoc(front, e, conn);
    }
  }

  lemma NeverJoined(conn: Conn, topic: string)
    ensures !StillJoined([], conn, topic) && !JoinedLast([], conn)
  {
  }

  lemma {:induction false} StillJoinedSnoc(events: seq<Event>, e: Event, conn: Conn, topic: string)
    ensures StillJoined(events + [e], conn, topic)
       <==> e == Join(conn, topic) || (StillJoined(events, conn, topic) && e != Leave(conn, topic))
  {
    var longer := events + [e];
    assert longer[|events|] == e && forall i :: 0 <= i < |events| ==> longer[i] == events[i];
  }

  lemma {:induction false} JoinedLastSnoc(events: seq<Event>, e: Event, conn: Conn)
    ensures JoinedLast(events + [e], conn) <==> (e.Join? && e.conn == conn) || (JoinedLast(events, conn) && e.conn != conn)
  {
    var longer := events + [e];
    assert longer[|events|] == e && forall i :: 0 <= i < |events| ==> longer[i] == events[i];
  }

  class Hub {
    var topics: map<string, set<Conn>>
    var all: set<Conn>
    ghost var events: seq<Event>

    ghost predicate Valid()
      reads this
    {
      all == Present(events) && Indexes(topics, Joined(events))
    }

    constructor ()
      ensures Valid() && events == []
    {
      topics, all, events := map[], {}, [];
    }

    method Join(conn: Conn, topic: string)
      requires Valid()
      modifies this
      ensures Valid() && events == old(events) + [Event.Join(conn, topic)]
    {
      AddIndexes(topics, Joined(events), conn, topic);
      all := all + {conn};
      if topic != "" {
        if topic !in topics {
          topics := topics[topic := {}];
        }
        topics := topics[topic := topics[topic] + {conn}];
      }
      assert topics == Add(old(topics), conn, topic);
      Next(events, Event.Join(conn, topic));
      events := events + [Event.Join(conn, topic)];
    }

    /** Leaving a topic that is not there changes nothing but the set of all connections. */
    method Leave(conn: Conn, topic: string)
      requires Valid()
      modifies this
      ensures Valid() && events == old(events) + [Event.Leave(conn, topic)]
    {
      RemoveIndexes(topics, Joined(events), conn, topic);
      all := all - {conn};
      if topic != "" && topic in topics {
        topics := topics[topic := topics[topic] - {conn}];
        if topics[topic] == {} {
          topics := topics - {topic};
        }
      }
      assert topics == Remove(old(topics), conn, topic);
      Next(events, Event.Leave(conn, topic));
      events := events + [Event.Leave(conn, topic)];
    }

    /** The connections a message is written to: those joined to its topic, or, for an empty topic, all
        whose last event was joining. */
    method Deliver(topic: string) returns (reached: set<Conn>)
      requires Valid()
      ensures topic == "" ==> reached == Present(events) && forall c :: c in reached <==> JoinedLast(events, c)
      ensures topic != "" ==> forall c :: c in reached <==> (c, topic) in Joined(events)
      ensures topic != "" ==> forall c :: c in reached <==> StillJoined(events, c, topic)
    {
      hide JoinedLast, StillJoined;
      reached := {};
      var left := if topic == "" then all else if topic in topics then topics[topic] else {};
      ghost var target := left;
      while left != {}
        invariant left <= target && reached == target - left
        decreases left
      {
        var conn :| conn in left;
        left := left - {conn};
        reached := reached + {conn};
      }
      assert topic != "" ==> forall c :: c in target <==> Holds(topics, c, topic);
      forall c
        ensures (c, topic) in Joined(events) <==> StillJoined(events, c, topic)
        ensures c in Present(events) <==> JoinedLast(events, c)
      {
        JoinedExactly(events, c, topic);
      }
    }
  }

  // ----- Whether a broadcast reaches the joined connections -----

  /** After every event so far, broadcasts reached exactly the connections of the joined pairs. */
  ghost predicate BroadcastsReachLive(events: seq<Event>) {
    && Present(events) == Live(Joined(events))
    && (events == [] || BroadcastsReachLive(events[..|events| - 1]))
  }

  /** A connection that leaves a topic is joined to no other one. */
  ghost predicate LeavesLast(events: seq<Event>) {
    events == [] ||
    (var front, e := events[..|events| - 1], events[|events| - 1];
     LeavesLast(front) && (e.Leave? ==> forall t :: t != e.topic ==> (e.conn, t) !in Joined(front)))
  }

  /** For any sequence of joins and leaves, broadcasts reach the joined connections throughout if and
      only if no connection leaves one topic while joined to another. */
  lemma {:induction false} BroadcastsExactly(events: seq<Event>)
    ensures BroadcastsReachLive(events) <==> LeavesLast(events)
  {
    if events != [] {
      var front, e := events[..|events| - 1], events[|events| - 1];
      BroadcastsExactly(front);
      if BroadcastsReachLive(front) {
        if e.Join? {
          LiveWith(Joined(front), e.conn, e.topic);
        } else {
          LiveWithout(Joined(front), e.conn, e.topic);
        }
      }
    }
  }

  lemma LiveWith(pairs: set<(Conn, string)>, conn: Conn, topic: string)
    ensures Live(pairs + {(conn, topic)}) == Live(pairs) + {conn}
  {
    assert (conn, topic) in pairs + {(conn, topic)};
  }

  lemma LiveWithout(pairs: set<(Conn, string)>, conn: Conn, topic: string)
    ensures Live(pairs - {(conn, topic)}) == Live(pairs) - {conn} <==> forall t :: t != topic ==> (conn, t) !in pairs
  {
    var rest := pairs - {(conn, topic)};
    if t :| t != topic && (conn, t) in pairs {
      assert (conn, t) in rest;
    } else {
      forall p | p in pairs && p.0 != conn ensures p in rest {
      }
      forall p | p in rest ensures p.0 != conn {
        assert p == (conn, p.1) || p.0 != conn;
      }
    }
  }

  /** The connection handler's pattern: a connection joins once, with one topic, and leaves with it. */
  ghost predicate OneTopicEach(events: seq<Event>) {
    events == [] ||
    (var front, e := events[..|events| - 1], events[|events| - 1];
     && OneTopicEach(front)
     && (if e.Join? then e.conn !in Live(Joined(front))
         else (e.conn, e.topic) in Joined(front)))
  }

  lemma {:induction false} JoinedOnce(events: seq<Event>, a: (Conn, string), b: (Conn, string))
    requires OneTopicEach(events) && a in Joined(events) && b in Joined(events) && a.0 == b.0
    ensures a == b
  {
    var front := events[..|events| - 1];
    if a in Joined(front) && b in Joined(front) {
      JoinedOnce(front, a, b);
    }
  }

  /** Used as the handler does, a broadcast always reaches exactly the joined connections. */
  lemma {:induction false} HandlerBroadcasts(events: seq<Event>)
    requires OneTopicEach(events)
    ensures Present(events) == Live(Joined(events))
  {
    HandlerLeavesLast(events);
    BroadcastsExactly(events);
  }

  lemma {:induction false} HandlerLeavesLast(events: seq<Event>)
    requires OneTopicEach(events)
    ensures LeavesLast(events)
  {
    if events != [] {
      var front, e := events[..|events| - 1], events[|events| - 1];
      HandlerLeavesLast(front);
      if e.Leave? {
        forall t | t != e.topic ensures (e.conn, t) !in Joined(front) {
          if (e.conn, t) in Joined(front) {
            JoinedOnce(front, (e.conn, t), (e.conn, e.topic));
          }
        }
      }
    }
  }

  /** Outside that pattern a joined connection can miss broadcasts. */
  lemma {:induction false} LeavingOneOfTwoMisses(c: Conn, a: string, b: string)
    requires a != b
    ensures
      var events := [Join(c, a), Join(c, b), Leave(c, b)];
      (c, a) in Joined(events) && c !in Present(events)
  {
    Next([], Join(c, a));
    Next([Join(c, a)], Join(c, b));
    Next([Join(c, a), Join(c, b)], Leave(c, b));
    assert [] + [Join(c, a)] == [Join(c, a)];
    assert [Join(c, a)] + [Join(c, b)] == [Join(c, a), Join(c, b)];
    assert [Join(c, a), Join(c, b)] + [Leave(c, b)] == [Join(c, a), Join(c, b), Leave(c, b)];
  }
}
