/** shell_in_a_box.js: the browser's side of a session, as far as keys go.  At most
    one request with keys is on its way; those typed meanwhile wait.  A new session
    forgets them. */
module KeyClient {
  import opened Bytes
  import opened Utf8
  import opened Keys

  /** What happens to the client, and to its requests with keys. */
  datatype Event =
    | Typed(ch: seq<Unit>)              // keysPressed
    | Resized                           // sends the new size, with waiting keys
    | Delivered(i: nat)                 // the server hands a request's keys to the child
    | Answered(i: nat)                  // the answer to a request is back
    | Polled(session: Option<string>)   // an answer to a polling request
    | Closed                            // the session is over
    | Reconnected                       // the user asks for a new session

  /** The client's connection, which depends on the polling requests and on the user
      only.  When a session is closed, nothing is requested any more. */
  datatype Link = Link(connected: bool, session: Option<string>, closed: bool)

  const CLOSED := Link(false, None, true)

  /** A request that is not answered yet.  A stale one belongs to an earlier session:
      its keys are for no child of this one. */
  datatype Request = Request(keys: seq<Byte>, delivered: bool, stale: bool)

  /** The client: the requests that are not answered, the keys that wait, those that
      the child was given, and those that earlier children were given. */
  datatype Client = Client(link: Link, inFlight: bool, requests: seq<Request>, waiting: seq<Byte>,
                           child: seq<Byte>, former: seq<Byte>)

  const START := Client(Link(false, None, false), false, [], [], [], [])

  // Keys are taken while connected.  They leave with the waiting ones unless a request
  // is not answered yet.
  function Send(s: Client, bytes: seq<Byte>): Client {
    if !s.link.connected then s
    else if s.inFlight || s.link.session == None then s.(waiting := s.waiting + bytes)
    else s.(inFlight := true, requests := s.requests + [Request(s.waiting + bytes, false, false)], waiting := [])
  }

  // A session once known never changes.
  function Hear(l: Link, response: Option<string>): Link {
    if l.closed then l
    else if response == None || (l.session != None && l.session != response) then CLOSED
    else Link(true, response, false)
  }

  function LinkStep(l: Link, e: Event): Link {
    match e
    case Polled(session) => Hear(l, session)
    case Closed => CLOSED
    case Reconnected => if l.closed then Link(false, None, false) else l
    case _ => l
  }

  // Whether the server may still hand the keys of request `i` to the child, and
  // whether its answer may come.
  predicate CanDeliver(s: Client, i: nat) {
    i < |s.requests| && !s.requests[i].delivered && !s.requests[i].stale
  }

  predicate CanAnswer(s: Client, i: nat) {
    i < |s.requests| && (s.requests[i].delivered || s.requests[i].stale)
  }

  function Deliver(s: Client, i: nat): Client
    requires i < |s.requests|
  {
    s.(child := s.child + s.requests[i].keys, requests := s.requests[i := s.requests[i].(delivered := true)])
  }

  function Without<T>(s: seq<T>, i: nat): (r: seq<T>)
    requires i < |s|
    ensures |r| == |s| - 1
  {
    s[..i] + s[i + 1..]
  }

  function Answer(s: Client, i: nat): Client
    requires i < |s.requests|
  {
    var s1 := s.(inFlight := false, requests := Without(s.requests, i));
    if s.waiting != [] then Send(s1, []) else s1
  }

  function Staled(requests: seq<Request>): (r: seq<Request>)
    ensures |r| == |requests|
  {
    seq(|requests|, i requires 0 <= i < |requests| => requests[i].(stale := true))
  }

  // A new session, with a child of its own: what waits is forgotten, and what is on its
  // way is for no one.
  function Reconnect(s: Client): Client {
    Client(Link(false, None, false), false, Staled(s.requests), [], [], s.former + s.child)
  }

  /** One event, if it can happen: the answer to keys comes once they are delivered. */
  function Step(s: Client, e: Event): Client {
    match e
    case Typed(ch) => Send(s, SentAll(ch))
    case Resized => if s.link.session != None then Send(s, []) else s
    case Delivered(i) => if CanDeliver(s, i) then Deliver(s, i) else s
    case Answered(i) => if CanAnswer(s, i) then Answer(s, i) else s
    case Reconnected => if s.link.closed then Reconnect(s) else s
    case _ => s.(link := LinkStep(s.link, e))
  }

  function After(s: Client, events: seq<Event>): Client {
    if events == [] then s else Step(After(s, events[..|events| - 1]), events[|events| - 1])
  }

  function LinkAfter(l: Link, events: seq<Event>): Link {
    if events == [] then l else LinkStep(LinkAfter(l, events[..|events| - 1]), events[|events| - 1])
  }

  // What one event adds to the keys typed.
  function TakenNow(l: Link, e: Event): seq<Byte> {
    if e.Typed? && l.connected then SentAll(e.ch) else []
  }

  /** The keys typed while the client was connected, in all sessions ... */
  function Taken(l: Link, events: seq<Event>): seq<Byte> {
    if events == [] then []
    else
      var init := events[..|events| - 1];
      Taken(l, init) + TakenNow(LinkAfter(l, init), events[|events| - 1])
  }

  // Whether an event starts another session.
  predicate Renews(l: Link, e: Event) {
    e.Reconnected? && l.closed
  }

  /** ... and in the last one. */
  function TakenSince(l: Link, events: seq<Event>): seq<Byte> {
    if events == [] then []
    else
      var init := events[..|events| - 1];
      var e := events[|events| - 1];
      if Renews(LinkAfter(l, init), e) then [] else TakenSince(l, init) + TakenNow(LinkAfter(l, init), e)
  }

  lemma ListsNone(s: Client)
    ensures After(s, []) == s && LinkAfter(s.link, []) == s.link
    ensures Taken(s.link, []) == [] && TakenSince(s.link, []) == []
  {
  }

  lemma ListsNext(s: Client, init: seq<Event>, e: Event)
    ensures var es := init + [e]; var l := LinkAfter(s.link, init);
      && After(s, es) == Step(After(s, init), e)
      && LinkAfter(s.link, es) == LinkStep(l, e)
      && Taken(s.link, es) == Taken(s.link, init) + TakenNow(l, e)
      && TakenSince(s.link, es) == if Renews(l, e) then [] else TakenSince(s.link, init) + TakenNow(l, e)
  {
    assert (init + [e])[..|init|] == init;
  }

  lemma Assoc(a: seq<Byte>, b: seq<Byte>, c: seq<Byte>)
    ensures a + b + c == a + (b + c)
  {
  }

  lemma StepLinks(s: Client, e: Event)
    ensures Step(s, e).link == LinkStep(s.link, e)
  {
    hide SentAll, Hear;
  }

  lemma {:induction false} RunLinks(s: Client, events: seq<Event>)
    ensures After(s, events).link == LinkAfter(s.link, events)
  {
    if events != [] {
      hide Step, LinkStep;
      RunLinks(s, events[..|events| - 1]);
      StepLinks(After(s, events[..|events| - 1]), events[|events| - 1]);
    }
  }

  // ---- One session ----

  /** At most one request is not answered, it is of this session, and the client knows
      of it. */
  predicate Kept(s: Client) {
    |s.requests| <= 1 && (s.inFlight <==> s.requests != []) && (s.requests != [] ==> !s.requests[0].stale)
  }

  // The keys of this session that are on their way to the child.
  function OnTheWay(s: Client): seq<Byte> {
    if s.requests != [] && !s.requests[0].delivered && !s.requests[0].stale then s.requests[0].keys else []
  }

  // All keys of this session that are not lost, in order.
  function Keyed(s: Client): seq<Byte> {
    s.child + OnTheWay(s) + s.waiting
  }

  lemma SendConserves(s: Client, bytes: seq<Byte>)
    requires Kept(s)
    ensures var r := Send(s, bytes);
      Kept(r) && r.link == s.link && Keyed(r) == Keyed(s) + if s.link.connected then bytes else []
  {
    if s.link.connected {
      var r := Send(s, bytes);
      assert Keyed(s) + bytes == s.child + OnTheWay(s) + (s.waiting + bytes);
      if !s.inFlight && s.link.session.Some? {
        assert OnTheWay(s) == [] && r.requests == [Request(s.waiting + bytes, false, false)];
        assert Keyed(r) == s.child + (s.waiting + bytes) + [];
      }
    }
  }

  lemma StepConserves(s: Client, e: Event)
    requires Kept(s) && !Renews(s.link, e)
    ensures var r := Step(s, e);
      Kept(r) && r.link == LinkStep(s.link, e) && Keyed(r) == Keyed(s) + TakenNow(s.link, e)
  {
    hide Send, SentAll, Hear;
    match e
    case Typed(ch) => SendConserves(s, SentAll(ch));
    case Resized => SendConserves(s, []);
    case Delivered(i) =>
    case Answered(i) =>
      if CanAnswer(s, i) {
        assert Without(s.requests, i) == [];
        SendConserves(s.(inFlight := false, requests := []), []);
      }
    case Reconnected =>
    case Polled(session) =>
    case Closed =>
  }

  // A new session that starts with all requests answered.
  lemma RenewedKept(s: Client)
    requires s.requests == []
    ensures var r := Reconnect(s); Kept(r) && Keyed(r) == []
  {
  }

  /** Every reconnection finds all requests answered. */
  predicate Settled(s: Client, events: seq<Event>) {
    forall i :: 0 <= i < |events| && Renews(LinkAfter(s.link, events[..i]), events[i]) ==>
      After(s, events[..i]).requests == []
  }

  lemma SettledNext(s: Client, init: seq<Event>, e: Event)
    requires Settled(s, init + [e])
    ensures Settled(s, init) && (Renews(LinkAfter(s.link, init), e) ==> After(s, init).requests == [])
  {
    hide After, LinkAfter, Renews;
    var events := init + [e];
    forall i | 0 <= i < |init| && Renews(LinkAfter(s.link, init[..i]), init[i])
      ensures After(s, init[..i]).requests == []
    {
      assert events[..i] == init[..i];
      assert Renews(LinkAfter(s.link, events[..i]), events[i]);
    }
    assert events[..|init|] == init && events[|init|] == e;
  }

  /** Over every run whose reconnections find all requests answered: at most one request
      with keys is on its way, and what the child was given, what is on the way and what
      waits are the keys typed in its session, none lost, doubled or overtaken. */
  lemma {:induction false} SessionConserves(s: Client, events: seq<Event>)
    requires Kept(s) && Keyed(s) == [] && Settled(s, events)
    ensures var r := After(s, events);
      Kept(r) && r.link == LinkAfter(s.link, events) && Keyed(r) == TakenSince(s.link, events)
  {
    hide Step, LinkStep, TakenNow, Keyed, Kept, After, LinkAfter, TakenSince, Settled, Renews;
    if events == [] {
      ListsNone(s);
    } else {
      var init, e := events[..|events| - 1], events[|events| - 1];
      assert events == init + [e];
      SettledNext(s, init, e);
      SessionConserves(s, init);
      ListsNext(s, init, e);
      SettledStep(After(s, init), e);
    }
  }

  lemma SettledStep(s: Client, e: Event)
    requires Kept(s) && (Renews(s.link, e) ==> s.requests == [])
    ensures var r := Step(s, e); Kept(r) && r.link == LinkStep(s.link, e)
    ensures Keyed(Step(s, e)) == if Renews(s.link, e) then [] else Keyed(s) + TakenNow(s.link, e)
  {
    if Renews(s.link, e) {
      RenewedKept(s);
    } else {
      StepConserves(s, e);
    }
  }

  // No event starts another session.
  predicate OneSession(events: seq<Event>) {
    forall i :: 0 <= i < |events| ==> !events[i].Reconnected?
  }

  /** Between reconnections: whatever happens, and in whatever order, at most one request
      is on its way, and no key is lost, doubled or overtaken. */
  lemma {:induction false} RunConserves(s: Client, events: seq<Event>)
    requires Kept(s) && OneSession(events)
    ensures var r := After(s, events);
      && Kept(r) && r.link == LinkAfter(s.link, events)
      && Keyed(r) == Keyed(s) + Taken(s.link, events)
  {
    hide Step, LinkStep, TakenNow, Keyed, Kept, After, LinkAfter, Taken;
    if events == [] {
      ListsNone(s);
    } else {
      var init, e := events[..|events| - 1], events[|events| - 1];
      RunConserves(s, init);
      StepConserves(After(s, init), e);
      assert events == init + [e];
      ListsNext(s, init, e);
      Assoc(Keyed(s), Taken(s.link, init), TakenNow(LinkAfter(s.link, init), e));
    }
  }

  // An event that goes on with the session of the given key.
  predicate GoesOn(e: Event, key: string) {
    !e.Closed? && (e.Polled? ==> e.session == Some(key))
  }

  predicate AllGoOn(events: seq<Event>, key: string) {
    forall i :: 0 <= i < |events| ==> GoesOn(events[i], key)
  }

  /** A session once known changes only by its end: the first reply with another key, or
      with none, closes it, and then nothing but a reconnection opens one again. */
  lemma {:induction false} SessionKept(s: Client, events: seq<Event>, key: string)
    requires s.link == Link(true, Some(key), false) && OneSession(events)
    ensures After(s, events).link == if AllGoOn(events, key) then s.link else Link(false, None, true)
    decreases |events|
  {
    hide Step;
    if events != [] {
      var init, e := events[..|events| - 1], events[|events| - 1];
      SessionKept(s, init, key);
      StepLinks(After(s, init), e);
      assert AllGoOn(events, key) <==> AllGoOn(init, key) && GoesOn(e, key);
    }
  }

  /** The first reply with a key makes it known, and one without ends the session. */
  lemma SessionOpened(s: Client, events: seq<Event>, session: Option<string>)
    requires After(s, events).link == Link(false, None, false)
    ensures After(s, events + [Polled(session)]).link
            == if session == None then Link(false, None, true) else Link(true, session, false)
  {
    hide Step;
    ListsNext(s, events, Polled(session));
    StepLinks(After(s, events), Polled(session));
  }

  // ---- What is lost ----

  function Undelivered(r: Request): multiset<Byte> {
    if r.delivered || r.stale then multiset{} else multiset(r.keys)
  }

  function UndeliveredAll(requests: seq<Request>): multiset<Byte> {
    if requests == [] then multiset{}
    else UndeliveredAll(requests[..|requests| - 1]) + Undelivered(requests[|requests| - 1])
  }

  // All keys that were given to a child, or may still be.
  function Count(s: Client): multiset<Byte> {
    multiset(s.former) + multiset(s.child) + UndeliveredAll(s.requests) + multiset(s.waiting)
  }

  // What an event loses: a reconnection, all that was not given to the child.
  function LostNow(s: Client, e: Event): multiset<Byte> {
    if Renews(s.link, e) then UndeliveredAll(s.requests) + multiset(s.waiting) else multiset{}
  }

  function Lost(s: Client, events: seq<Event>): multiset<Byte> {
    if events == [] then multiset{}
    else
      var init := events[..|events| - 1];
      Lost(s, init) + LostNow(After(s, init), events[|events| - 1])
  }

  lemma UndeliveredNext(requests: seq<Request>, r: Request)
    ensures UndeliveredAll(requests + [r]) == UndeliveredAll(requests) + Undelivered(r)
  {
    assert (requests + [r])[..|requests|] == requests;
  }

  lemma {:induction false} UndeliveredWithout(requests: seq<Request>, i: nat)
    requires i < |requests|
    ensures UndeliveredAll(requests) == UndeliveredAll(Without(requests, i)) + Undelivered(requests[i])
    decreases |requests|
  {
    hide UndeliveredAll, Undelivered;
    var init, last := requests[..|requests| - 1], requests[|requests| - 1];
    assert requests == init + [last];
    UndeliveredNext(init, last);
    if i == |init| {
      assert Without(requests, i) == init;
    } else {
      UndeliveredWithout(init, i);
      assert Without(requests, i) == Without(init, i) + [last];
      UndeliveredNext(Without(init, i), last);
      Swapped(UndeliveredAll(Without(init, i)), Undelivered(requests[i]), Undelivered(last));
    }
  }

  lemma Swapped(a: multiset<Byte>, b: multiset<Byte>, c: multiset<Byte>)
    ensures a + b + c == a + c + b
  {
  }

  lemma UndeliveredUpdate(requests: seq<Request>, i: nat, r: Request)
    requires i < |requests|
    ensures UndeliveredAll(requests[i := r]) + Undelivered(requests[i]) == UndeliveredAll(requests) + Undelivered(r)
  {
    hide UndeliveredAll, Undelivered;
    UndeliveredWithout(requests, i);
    UndeliveredWithout(requests[i := r], i);
    assert Without(requests[i := r], i) == Without(requests, i);
    Swapped(UndeliveredAll(Without(requests, i)), Undelivered(r), Undelivered(requests[i]));
  }

  lemma {:induction false} StaledNone(requests: seq<Request>)
    ensures UndeliveredAll(Staled(requests)) == multiset{}
    decreases |requests|
  {
    if requests != [] {
      var init := requests[..|requests| - 1];
      StaledNone(init);
      assert Staled(requests) == Staled(init) + [requests[|init|].(stale := true)];
      UndeliveredNext(Staled(init), requests[|init|].(stale := true));
    }
  }

  lemma SendCounts(s: Client, bytes: seq<Byte>)
    ensures Count(Send(s, bytes)) == Count(s) + if s.link.connected then multiset(bytes) else multiset{}
  {
    hide UndeliveredAll;
    UndeliveredNext(s.requests, Request(s.waiting + bytes, false, false));
  }

  lemma DeliverCounts(s: Client, i: nat)
    requires CanDeliver(s, i)
    ensures Count(Deliver(s, i)) == Count(s)
  {
    hide UndeliveredAll;
    var r := s.requests[i];
    UndeliveredUpdate(s.requests, i, r.(delivered := true));
    assert UndeliveredAll(Deliver(s, i).requests) + multiset(r.keys) == UndeliveredAll(s.requests);
    assert multiset(s.child + r.keys) == multiset(s.child) + multiset(r.keys);
  }

  lemma StepCounts(s: Client, e: Event)
    ensures Count(Step(s, e)) + LostNow(s, e) == Count(s) + multiset(TakenNow(s.link, e))
  {
    hide Send, SentAll, Hear, UndeliveredAll, Staled, Count, Answer, Deliver, Reconnect;
    match e
    case Typed(ch) => SendCounts(s, SentAll(ch));
    case Resized => SendCounts(s, []);
    case Delivered(i) =>
      if CanDeliver(s, i) {
        DeliverCounts(s, i);
      }
    case Answered(i) =>
      if CanAnswer(s, i) {
        AnswerCounts(s, i);
      }
    case Reconnected => ReconnectCounts(s);
    case Polled(session) => LinkCounts(s, LinkStep(s.link, e));
    case Closed => LinkCounts(s, LinkStep(s.link, e));
  }

  lemma LinkCounts(s: Client, l: Link)
    ensures Count(s.(link := l)) == Count(s)
  {
  }

  lemma AnswerCounts(s: Client, i: nat)
    requires CanAnswer(s, i)
    ensures Count(Answer(s, i)) == Count(s)
  {
    hide Send, UndeliveredAll;
    UndeliveredWithout(s.requests, i);
    SendCounts(s.(inFlight := false, requests := Without(s.requests, i)), []);
  }

  lemma ReconnectCounts(s: Client)
    ensures Count(Reconnect(s)) + (UndeliveredAll(s.requests) + multiset(s.waiting)) == Count(s)
  {
    hide UndeliveredAll, Staled;
    StaledNone(s.requests);
    assert multiset(s.former + s.child) == multiset(s.former) + multiset(s.child);
  }

  /** Over every run: each key typed was given to a child, or is on its way or waits, or
      was lost by a reconnection, and only once. */
  lemma {:induction false} RunCounts(s: Client, events: seq<Event>)
    ensures Count(After(s, events)) + Lost(s, events) == Count(s) + multiset(Taken(s.link, events))
  {
    hide Step, Count, LostNow, LinkAfter, TakenNow;
    if events != [] {
      var init, e := events[..|events| - 1], events[|events| - 1];
      RunCounts(s, init);
      RunLinks(s, init);
      var s1, l := After(s, init), LinkAfter(s.link, init);
      StepCounts(s1, e);
      hide After, Taken, Lost;
      assert multiset(Taken(s.link, init) + TakenNow(l, e)) == multiset(Taken(s.link, init)) + multiset(TakenNow(l, e));
      assert Count(Step(s1, e)) + (Lost(s, init) + LostNow(s1, e)) == Count(Step(s1, e)) + LostNow(s1, e) + Lost(s, init);
      Swapped(Count(s1), multiset(TakenNow(l, e)), Lost(s, init));
    }
  }

  /** All that was typed was given to the child. */
  predicate Idle(s: Client) {
    s.waiting == [] && forall i :: 0 <= i < |s.requests| && CanDeliver(s, i) ==> s.requests[i].keys == []
  }

  lemma {:induction false} IdleCounts(requests: seq<Request>)
    ensures UndeliveredAll(requests) == multiset{}
      <==> forall i :: 0 <= i < |requests| && !requests[i].delivered && !requests[i].stale ==> requests[i].keys == []
    decreases |requests|
  {
    if requests != [] {
      var init, last := requests[..|requests| - 1], requests[|requests| - 1];
      IdleCounts(init);
      assert forall i :: 0 <= i < |init| ==> requests[i] == init[i];
      assert Undelivered(last) == multiset{} <==> last.delivered || last.stale || |last.keys| == 0;
    }
  }

  lemma IdleLoses(s: Client, e: Event)
    requires Renews(s.link, e)
    ensures LostNow(s, e) == multiset{} <==> Idle(s)
  {
    hide UndeliveredAll;
    IdleCounts(s.requests);
    assert multiset(s.waiting) == multiset{} <==> |s.waiting| == 0;
  }

  /** Every reconnection finds the client idle. */
  predicate Spared(s: Client, events: seq<Event>) {
    forall i :: 0 <= i < |events| && Renews(LinkAfter(s.link, events[..i]), events[i]) ==> Idle(After(s, events[..i]))
  }

  lemma SparedNext(s: Client, init: seq<Event>, e: Event)
    ensures Spared(s, init + [e])
      <==> Spared(s, init) && (Renews(LinkAfter(s.link, init), e) ==> Idle(After(s, init)))
  {
    hide After, LinkAfter, Renews, Idle;
    var events := init + [e];
    assert forall i :: 0 <= i < |init| ==> events[..i] == init[..i] && events[i] == init[i];
    assert events[..|init|] == init && events[|init|] == e;
  }

  lemma {:induction false} NothingLost(s: Client, events: seq<Event>)
    ensures Lost(s, events) == multiset{} <==> Spared(s, events)
  {
    hide After, LinkAfter, Idle, Renews, UndeliveredAll;
    if events != [] {
      var init, e := events[..|events| - 1], events[|events| - 1];
      assert events == init + [e];
      NothingLost(s, init);
      SparedNext(s, init, e);
      RunLinks(s, init);
      if Renews(LinkAfter(s.link, init), e) {
        IdleLoses(After(s, init), e);
      }
      EmptySum(Lost(s, init), LostNow(After(s, init), e));
    }
  }

  lemma EmptySum(a: multiset<Byte>, b: multiset<Byte>)
    ensures a + b == multiset{} <==> a == multiset{} && b == multiset{}
  {
    if a + b == multiset{} {
      assert forall x :: a[x] <= (a + b)[x] && b[x] <= (a + b)[x];
    }
  }

  /** No key is lost if and only if at each reconnection nothing waits and the child was
      given all that was sent. */
  lemma KeysLost(s: Client, events: seq<Event>)
    ensures Count(After(s, events)) == Count(s) + multiset(Taken(s.link, events)) <==> Spared(s, events)
  {
    hide Count, After, Taken, Lost, Spared;
    RunCounts(s, events);
    NothingLost(s, events);
    NoRest(Count(After(s, events)), Lost(s, events));
  }

  lemma NoRest(a: multiset<Byte>, rest: multiset<Byte>)
    ensures a + rest == a <==> rest == multiset{}
  {
    if a + rest == a {
      assert forall x :: (a + rest)[x] == a[x] + rest[x];
    }
  }

  // ---- Order ----

  /** At most one request of this session is not answered. */
  predicate OneAtATime(s: Client) {
    forall i, j :: 0 <= i < j < |s.requests| ==> s.requests[i].stale || s.requests[j].stale
  }

  // A new session in which two keys are typed, and an old answer comes in between.
  function OldAnswer(a: Unit, b: Unit): seq<Event> {
    [Polled(Some("new"))] + [Typed([a])] + [Answered(0)] + [Typed([b])]
  }

  function StaleAnswer(s: Client, a: Unit, b: Unit): Client {
    var s1 := Reconnect(s);
    Step(Step(Step(Step(s1, Polled(Some("new"))), Typed([a])), Answered(0)), Typed([b]))
  }

  lemma AfterFour(s: Client, e0: Event, e1: Event, e2: Event, e3: Event)
    ensures After(s, [e0] + [e1] + [e2] + [e3]) == Step(Step(Step(Step(s, e0), e1), e2), e3)
  {
    hide Step, After, LinkAfter, Taken, TakenSince;
    ListsNone(s);
    ListsNext(s, [], e0);
    assert [] + [e0] == [e0];
    ListsNext(s, [e0], e1);
    ListsNext(s, [e0] + [e1], e2);
    ListsNext(s, [e0] + [e1] + [e2], e3);
  }

  lemma StaleAnswerDoubles(s: Client, a: Unit, b: Unit)
    requires s.link.closed && s.requests != []
    ensures var r := StaleAnswer(s, a, b); var n := |r.requests|;
      && n >= 2 && r.requests[n - 2] == Request(SentAll([a]), false, false)
      && r.requests[n - 1] == Request(SentAll([b]), false, false) && r.child == []
  {
    hide SentAll;
    var k := |s.requests|;
    var s2 := Step(Reconnect(s), Polled(Some("new")));
    var s3 := Step(s2, Typed([a]));
    assert [] + SentAll([a]) == SentAll([a]) && [] + SentAll([b]) == SentAll([b]);
    assert s3.requests == Staled(s.requests) + [Request(SentAll([a]), false, false)];
    var s4 := Step(s3, Answered(0));
    assert s4.requests == Staled(s.requests)[1..] + [Request(SentAll([a]), false, false)];
  }

  /** After a reconnection, one request at a time and keys in order can be relied on if
      and only if no request was left without its answer. */
  lemma ReconnectOrders(s: Client)
    requires s.link.closed
    ensures (forall es :: OneSession(es) ==> OneAtATime(After(Reconnect(s), es))) <==> s.requests == []
  {
    if s.requests == [] {
      RenewedKept(s);
      forall es | OneSession(es)
        ensures OneAtATime(After(Reconnect(s), es))
      {
        RunConserves(Reconnect(s), es);
      }
    } else {
      hide Step, Reconnect, After, SentAll;
      var es := OldAnswer(65, 66);
      AfterFour(Reconnect(s), es[0], es[1], es[2], es[3]);
      StaleAnswerDoubles(s, 65, 66);
      assert OneSession(es) && !OneAtATime(After(Reconnect(s), es));
    }
  }

  /** Otherwise the child may be given a later key first. */
  lemma KeysOvertaken(s: Client, a: Unit, b: Unit)
    requires s.link.closed && s.requests != []
    ensures var es := OldAnswer(a, b); var r := After(Reconnect(s), es); var n := |r.requests|;
      && TakenSince(Reconnect(s).link, es) == SentAll([a]) + SentAll([b])
      && n > 0 && Step(r, Delivered(n - 1)).child == SentAll([b])
  {
    hide SentAll, After;
    var es := OldAnswer(a, b);
    AfterFour(Reconnect(s), es[0], es[1], es[2], es[3]);
    StaleAnswerDoubles(s, a, b);
    TakenFour(Reconnect(s).link, a, b);
    hide Reconnect, StaleAnswer;
    assert [] + SentAll([b]) == SentAll([b]);
  }

  lemma TakenFour(l: Link, a: Unit, b: Unit)
    requires l == Link(false, None, false)
    ensures TakenSince(l, OldAnswer(a, b)) == SentAll([a]) + SentAll([b])
  {
    hide SentAll, After, LinkAfter, Taken, TakenSince;
    var e0, e1, e2, e3 := Polled(Some("new")), Typed([a]), Answered(0), Typed([b]);
    var s := START.(link := l);
    ListsNone(s);
    ListsNext(s, [], e0);
    assert [] + [e0] == [e0];
    ListsNext(s, [e0], e1);
    ListsNext(s, [e0] + [e1], e2);
    ListsNext(s, [e0] + [e1] + [e2], e3);
    assert [] + [] + SentAll([a]) + [] == SentAll([a]);
  }

  // ---- Progress ----

  /** Connected, with nothing that waits for no answer. */
  predicate Moving(s: Client) {
    Kept(s) && s.link.connected && s.link.session.Some? && !s.link.closed && (s.waiting != [] ==> s.inFlight)
  }

  // Events that leave the connection as it is.
  predicate Steady(session: Option<string>, events: seq<Event>) {
    forall i :: 0 <= i < |events| ==>
      !events[i].Closed? && !events[i].Reconnected? && (events[i].Polled? ==> events[i].session == session)
  }

  lemma StepMoving(s: Client, e: Event)
    requires Moving(s) && Steady(s.link.session, [e])
    ensures Moving(Step(s, e)) && Step(s, e).link == s.link
  {
    hide SentAll;
    assert [e][0] == e;
  }

  lemma {:induction false} StaysMoving(s: Client, events: seq<Event>)
    requires Moving(s) && Steady(s.link.session, events)
    ensures var r := After(s, events); Moving(r) && r.link == s.link
  {
    if events != [] {
      hide Step, Moving;
      StaysMoving(s, events[..|events| - 1]);
      StepMoving(After(s, events[..|events| - 1]), events[|events| - 1]);
    }
  }

  // The request on the way is delivered and answered, and the next one delivered.
  const ROUND: seq<Event> := [Delivered(0), Answered(0), Delivered(0)]

  lemma RoundDelivers(s: Client)
    requires Moving(s)
    ensures var r := Step(Step(Step(s, Delivered(0)), Answered(0)), Delivered(0)); OnTheWay(r) == [] && r.waiting == []
  {
  }

  /** While the connection stays, one round trip is all that keys wait for: after it the
      child was given all keys typed. */
  lemma KeysReachChild(s: Client, events: seq<Event>)
    requires Moving(s) && Steady(s.link.session, events)
    ensures After(s, events + ROUND).child == Keyed(s) + Taken(s.link, events)
  {
    hide Step, Taken, LinkAfter, After, OnTheWay;
    RunConserves(s, events);
    StaysMoving(s, events);
    var r := After(s, events);
    RoundDelivers(r);
    var r1 := Step(r, Delivered(0));
    var r2 := Step(r1, Answered(0));
    StepConserves(r, Delivered(0));
    StepConserves(r1, Answered(0));
    StepConserves(r2, Delivered(0));
    ListsNext(s, events, Delivered(0));
    ListsNext(s, events + [Delivered(0)], Answered(0));
    ListsNext(s, events + [Delivered(0)] + [Answered(0)], Delivered(0));
    assert events + ROUND == events + [Delivered(0)] + [Answered(0)] + [Delivered(0)];
    var last := Step(r2, Delivered(0));
    assert Keyed(last) == last.child + [] + [] == last.child;
    assert Keyed(r) + [] + [] + [] == Keyed(r);
  }

  // ---- The program ----

  /** A request as it is sent, in digits. */
  datatype Sent = Sent(digits: seq<Byte>, delivered: bool, stale: bool)

  // Digits that stand for bytes, and for nothing else.
  predicate Digits(s: seq<Byte>) {
    Hex(Unhex(s)) == s
  }

  lemma DigitsOf(b: seq<Byte>)
    ensures Digits(Hex(b)) && Unhex(Hex(b)) == b
  {
    UnhexHex(b);
  }

  lemma DigitsConcat(a: seq<Byte>, b: seq<Byte>)
    requires Digits(a) && Digits(b)
    ensures Digits(a + b) && Unhex(a + b) == Unhex(a) + Unhex(b)
  {
    hide Hex, Unhex;
    HexConcat(Unhex(a), Unhex(b));
    DigitsOf(Unhex(a) + Unhex(b));
  }

  function Meaning(r: Sent): Request {
    Request(Unhex(r.digits), r.delivered, r.stale)
  }

  function Meanings(s: seq<Sent>): (r: seq<Request>)
    ensures |r| == |s|
  {
    seq(|s|, i requires 0 <= i < |s| => Meaning(s[i]))
  }

  class ShellInABox {
    var pendingKeys: seq<Byte>
    var keysInFlight: bool
    var connected: bool
    var session: Option<string>
    var closed: bool               // the user is offered to reconnect
    var requests: seq<Sent>        // those that are not answered
    var child: seq<Byte>           // what the child was given
    var former: seq<Byte>          // what earlier children were given

    ghost function Abs(): Client
      reads this
    {
      Client(Link(connected, session, closed), keysInFlight, Meanings(requests), Unhex(pendingKeys), child, former)
    }

    ghost predicate Valid()
      reads this
    {
      Digits(pendingKeys) && forall i :: 0 <= i < |requests| ==> Digits(requests[i].digits)
    }

    constructor ()
      ensures Valid() && Abs() == START
    {
      pendingKeys, keysInFlight, connected, session, closed := [], false, false, None, false;
      requests, child, former := [], [], [];
    }

    /** Sends digits, together with the waiting ones, or makes them wait. */
    method SendKeys(keys0: seq<Byte>)
      requires Valid() && Digits(keys0)
      modifies this
      ensures Valid() && Abs() == Send(old(Abs()), Unhex(keys0))
      ensures old(connected && !keysInFlight && session.Some?) ==>
        && keysInFlight && pendingKeys == []
        && requests == old(requests) + [Sent(old(pendingKeys) + keys0, false, false)]
      ensures old(connected && (keysInFlight || session == None)) ==>
        requests == old(requests) && pendingKeys == old(pendingKeys) + keys0
    {
      hide Digits, Unhex;
      DigitsConcat(pendingKeys, keys0);
      NoDigits();
      if !connected {
        return;
      }
      if keysInFlight || session == None {
        pendingKeys := pendingKeys + keys0;
      } else {
        keysInFlight := true;
        var keys := pendingKeys + keys0;
        pendingKeys := [];
        requests := requests + [Sent(keys, false, false)];
        assert Abs().requests == old(Abs().requests) + [Request(Unhex(keys), false, false)];
      }
    }

    method TypeKeys(ch: seq<Unit>)
      requires Valid()
      modifies this
      ensures Valid() && Abs() == Step(old(Abs()), Typed(ch))
    {
      var s := Keys.KeysPressed(ch);
      DigitsOf(SentAll(ch));
      SendKeys(s);
    }

    // The server decodes the digits for the child.
    method DeliverRequest(i: nat)
      requires Valid() && CanDeliver(Abs(), i)
      modifies this
      ensures Valid() && Abs() == Deliver(old(Abs()), i)
    {
      hide Unhex, Hex;
      HexNoNul(Unhex(requests[i].digits));
      var keyCodes, len := DecodeKeys(requests[i].digits);
      child := child + keyCodes[..len];
      requests := requests[i := requests[i].(delivered := true)];
      assert Abs().requests == old(Abs().requests)[i := old(Abs().requests[i]).(delivered := true)];
    }

    /** The answer to a request with keys: the waiting keys leave, if there are any and
        the session is still there. */
    method KeyPressReadyStateChange(i: nat)
      requires Valid() && CanAnswer(Abs(), i)
      modifies this
      ensures Valid() && Abs() == Answer(old(Abs()), i)
      ensures old(pendingKeys) != [] && connected && session.Some? ==>
        && pendingKeys == [] && keysInFlight
        && requests == Without(old(requests), i) + [Sent(old(pendingKeys), false, false)]
    {
      hide Digits, Unhex;
      NoDigits();
      SomeDigits(pendingKeys);
      requests := Without(requests, i);
      assert Abs().requests == Without(old(Abs().requests), i);
      keysInFlight := false;
      if pendingKeys != [] {
        assert pendingKeys + [] == pendingKeys;
        SendKeys([]);
      }
    }

    /** The answer to a polling request: its session key, if it has one. */
    method OnReadyStateChange(response: Option<string>)
      requires Valid() && !closed
      modifies `connected, `session, `closed
      ensures Valid() && Abs() == Step(old(Abs()), Polled(response))
    {
      connected := true;
      if response == None || (session != None && session != response) {
        SessionClosed();
      } else {
        session := response;
      }
    }

    method SessionClosed()
      requires Valid()
      modifies `connected, `session, `closed
      ensures Valid() && Abs() == old(Abs()).(link := CLOSED)
    {
      connected := false;
      session := None;
      closed := true;
    }

    /** The user asks for a new session: the server starts another child. */
    method Reconnect()
      requires Valid() && closed
      modifies this
      ensures Valid() && Abs() == Step(old(Abs()), Reconnected)
    {
      hide Digits, Unhex;
      NoDigits();
      closed, connected, session := false, false, None;
      pendingKeys := [];
      keysInFlight := false;
      former, child := former + child, [];
      var rs := requests;
      requests := seq(|rs|, i requires 0 <= i < |rs| => rs[i].(stale := true));
      assert Abs().requests == Staled(old(Abs().requests));
    }

    method Handle(e: Event)
      requires Valid()
      modifies this
      ensures Valid() && Abs() == Step(old(Abs()), e)
    {
      hide Digits, Unhex;
      match e
      case Typed(ch) =>
        TypeKeys(ch);
      case Resized =>
        if session != None {
          NoDigits();
          SendKeys([]);
        }
      case Delivered(i) =>
        if i < |requests| && !requests[i].delivered && !requests[i].stale {
          DeliverRequest(i);
        }
      case Answered(i) =>
        if i < |requests| && (requests[i].delivered || requests[i].stale) {
          KeyPressReadyStateChange(i);
        }
      case Polled(s) =>
        if !closed {
          OnReadyStateChange(s);
        }
      case Closed =>
        SessionClosed();
      case Reconnected =>
        if closed {
          Reconnect();
        }
    }

    /** Any sequence of events, as far as they can happen. */
    method Run(events: seq<Event>)
      requires Valid()
      modifies this
      ensures Valid() && Abs() == After(old(Abs()), events)
    {
      hide Step;
      for i := 0 to |events|
        invariant Valid() && Abs() == After(old(Abs()), events[..i])
      {
        assert events[..i + 1][..i] == events[..i];
        Handle(events[i]);
      }
      assert events[..|events|] == events;
    }
  }

  lemma NoDigits()
    ensures Digits([]) && Unhex([]) == []
  {
  }

  lemma SomeDigits(s: seq<Byte>)
    requires Digits(s)
    ensures s == [] <==> Unhex(s) == []
  {
  }
}
