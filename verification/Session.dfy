/** shellinaboxd.c: one session, between the child's terminal and the requests that
    poll for its output. */
module Session {
  import opened Bytes

  const MAX_RESPONSE: nat := 2048
  const INT_MAX: nat := 0x7FFF_FFFF
  const BELL: Byte := 7

  // The answer to a polling request: its raw data, before it is escaped.
  datatype Reply = Reply(http: nat, data: seq<Byte>)

  function Sent(replies: seq<Reply>): seq<Byte> {
    if replies == [] then [] else Sent(replies[..|replies| - 1]) + replies[|replies| - 1].data
  }

  function Answered(replies: seq<Reply>): seq<nat> {
    if replies == [] then [] else Answered(replies[..|replies| - 1]) + [replies[|replies| - 1].http]
  }

  lemma SentNext(replies: seq<Reply>, r: Reply)
    ensures Sent(replies + [r]) == Sent(replies) + r.data
    ensures Answered(replies + [r]) == Answered(replies) + [r.http]
  {
    assert (replies + [r])[..|replies|] == replies;
  }

  // ---- What a session does ----

  /** What happens to a session from outside. */
  datatype Event =
    | Output(bytes: seq<Byte>)   // the child wrote something
    | Hangup                     // the child is gone, or the session timed out
    | Poll(http: nat)            // a request for output
    | Keys(full: bool)           // keys for the child; its input may be full

  /** A session: the request that waits, what is still to be sent, and the replies so
      far. */
  datatype State = State(http: Option<nat>, done: bool, buffered: seq<Byte>, finished: bool, replies: seq<Reply>)

  // A new session, which its first request opens and is answered at once.
  function Opened(id: nat): State {
    State(None, false, [], false, [Reply(id, [])])
  }

  function Least(a: nat, b: nat): nat {
    if a < b then a else b
  }

  // More output: a waiting request takes as much as a reply may carry, the rest is
  // kept.  When the child is gone, nothing left to send is the end.
  function Give(s: State, buf: seq<Byte>, limit: nat): State {
    var all := s.buffered + buf;
    var n := if s.http.Some? then Least(|all|, limit) else 0;
    State(None, s.done, all[n..], s.done && n == |all|,
          if s.http.Some? then s.replies + [Reply(s.http.value, all[..n])] else s.replies)
  }

  // The most that is read from the child at once.
  function ReadLimit(s: State): (limit: nat)
    ensures 0 < limit <= MAX_RESPONSE
  {
    if |s.buffered| < MAX_RESPONSE then MAX_RESPONSE - |s.buffered| else 1
  }

  /** Whether an event can happen: not after the end, and nothing comes from a child
      that is gone. */
  predicate Can(s: State, e: Event) {
    && !s.finished
    && (e.Output? ==> !s.done && 0 < |e.bytes| <= ReadLimit(s))
    && (e.Hangup? ==> !s.done)
  }

  // A request for output, after any other one was answered.
  function Polled(s: State, id: nat): State {
    if s.buffered != [] then Give(s.(http := Some(id)), [], MAX_RESPONSE) else s.(http := Some(id))
  }

  function Apply(s: State, e: Event): State {
    match e
    case Output(bytes) => Give(s, bytes, MAX_RESPONSE)
    case Hangup => Give(s.(done := true), [], INT_MAX)
    case Poll(id) => Polled(if s.http.Some? then Give(s, [], MAX_RESPONSE) else s, id)
    case Keys(full) => if full then Give(s, [BELL], MAX_RESPONSE) else s
  }

  function Step(s: State, e: Event): State {
    if Can(s, e) then Apply(s, e) else s
  }

  /** The session after any list of events, as far as they can happen. */
  function After(s: State, events: seq<Event>): State {
    if events == [] then s else Step(After(s, events[..|events| - 1]), events[|events| - 1])
  }

  // The events that did happen.
  function Happened(s: State, events: seq<Event>): seq<Event> {
    if events == [] then []
    else
      var init := events[..|events| - 1];
      var e := events[|events| - 1];
      Happened(s, init) + if Can(After(s, init), e) then [e] else []
  }

  function Shows(e: Event): seq<Byte> {
    if e.Output? then e.bytes else if e == Keys(true) then [BELL] else []
  }

  /** All that the user is to see, in order: output, and a bell for refused keys. */
  function Written(events: seq<Event>): seq<Byte> {
    if events == [] then [] else Written(events[..|events| - 1]) + Shows(events[|events| - 1])
  }

  /** The requests for output, in order. */
  function Polls(events: seq<Event>): seq<nat> {
    if events == [] then []
    else Polls(events[..|events| - 1]) + if events[|events| - 1].Poll? then [events[|events| - 1].http] else []
  }

  function Waiting(s: State): seq<nat> {
    if s.http.Some? then [s.http.value] else []
  }

  /** What every run keeps: a request only waits while there is nothing to send and
      the child is there, a session is over exactly when its child is gone and all
      its output was sent, and no reply is too long. */
  predicate Kept(s: State) {
    && (s.http.Some? ==> s.buffered == [] && !s.done)
    && (s.finished <==> s.done && s.buffered == [])
    && Short(s.replies)
  }

  predicate Short(replies: seq<Reply>) {
    forall i :: 0 <= i < |replies| ==> |replies[i].data| <= MAX_RESPONSE
  }

  lemma ShortNext(replies: seq<Reply>, r: Reply)
    requires Short(replies) && |r.data| <= MAX_RESPONSE
    ensures Short(replies + [r])
  {
  }

  lemma GiveKeeps(s: State, buf: seq<Byte>, limit: nat)
    requires Short(s.replies) && (s.http.Some? ==> Least(|s.buffered + buf|, limit) <= MAX_RESPONSE)
    ensures var r := Give(s, buf, limit);
      r.http == None && r.done == s.done && (r.finished <==> r.done && r.buffered == []) && Short(r.replies)
  {
    hide Short;
    var all := s.buffered + buf;
    var n := if s.http.Some? then Least(|all|, limit) else 0;
    assert |all[n..]| == |all| - n;
    if s.http.Some? {
      ShortNext(s.replies, Reply(s.http.value, all[..n]));
    }
  }

  lemma GiveConserves(s: State, buf: seq<Byte>, limit: nat)
    ensures var r := Give(s, buf, limit);
      && Sent(r.replies) + r.buffered == Sent(s.replies) + s.buffered + buf
      && Answered(r.replies) == Answered(s.replies) + Waiting(s)
  {
    hide Sent, Answered;
    var all := s.buffered + buf;
    assert Sent(s.replies) + s.buffered + buf == Sent(s.replies) + all;
    if s.http.Some? {
      var n := Least(|all|, limit);
      SentNext(s.replies, Reply(s.http.value, all[..n]));
      assert Sent(s.replies) + all == Sent(s.replies) + all[..n] + all[n..];
    }
  }

  lemma StepKeeps(s: State, e: Event)
    requires Kept(s)
    ensures Kept(Step(s, e))
  {
    hide Short, Give;
    if Can(s, e) {
      match e
      case Output(bytes) => GiveKeeps(s, bytes, MAX_RESPONSE);
      case Hangup => GiveKeeps(s.(done := true), [], INT_MAX);
      case Poll(id) =>
        GiveKeeps(s, [], MAX_RESPONSE);
        GiveKeeps((if s.http.Some? then Give(s, [], MAX_RESPONSE) else s).(http := Some(id)), [], MAX_RESPONSE);
      case Keys(full) => GiveKeeps(s, [BELL], MAX_RESPONSE);
    }
  }

  lemma StepConserves(s: State, e: Event)
    requires Kept(s) && Can(s, e)
    ensures var r := Apply(s, e);
      && Sent(r.replies) + r.buffered == Sent(s.replies) + s.buffered + Shows(e)
      && Answered(r.replies) + Waiting(r) == Answered(s.replies) + Waiting(s) + if e.Poll? then [e.http] else []
  {
    hide Sent, Answered;
    match e
    case Output(bytes) => GiveConserves(s, bytes, MAX_RESPONSE);
    case Hangup => GiveConserves(s.(done := true), [], INT_MAX);
    case Poll(id) =>
      var s1 := if s.http.Some? then Give(s, [], MAX_RESPONSE) else s;
      GiveConserves(s, [], MAX_RESPONSE);
      GiveConserves(s1.(http := Some(id)), [], MAX_RESPONSE);
    case Keys(full) => GiveConserves(s, [BELL], MAX_RESPONSE);
  }

  lemma ListsNext(s: State, init: seq<Event>, e: Event)
    ensures var es := init + [e];
      && After(s, es) == Step(After(s, init), e)
      && Happened(s, es) == Happened(s, init) + (if Can(After(s, init), e) then [e] else [])
      && Written(es) == Written(init) + Shows(e)
      && Polls(es) == Polls(init) + if e.Poll? then [e.http] else []
  {
    assert (init + [e])[..|init|] == init;
  }

  lemma ListsNone(s: State)
    ensures After(s, []) == s && Happened(s, []) == [] && Written([]) == [] && Polls([]) == []
  {
  }

  lemma Assoc<T>(a: seq<T>, b: seq<T>, c: seq<T>, d: seq<T>)
    ensures a + b + c + d == a + b + (c + d)
  {
  }

  /** Whatever happens, and in whatever order: the data sent, followed by what is
      buffered, is all that was written, and the requests answered, followed by the
      one that waits, are all that came. */
  lemma {:induction false} RunConserves(s: State, events: seq<Event>)
    requires Kept(s)
    ensures var r := After(s, events); var es := Happened(s, events);
      && Kept(r)
      && Sent(r.replies) + r.buffered == Sent(s.replies) + s.buffered + Written(es)
      && Answered(r.replies) + Waiting(r) == Answered(s.replies) + Waiting(s) + Polls(es)
  {
    hide Sent, Answered, Kept, After, Happened, Can, Written, Polls, Apply;
    if events == [] {
      ListsNone(s);
    } else {
      var init, e := events[..|events| - 1], events[|events| - 1];
      RunConserves(s, init);
      assert events == init + [e];
      ListsNext(s, init, e);
      var s1, es := After(s, init), Happened(s, init);
      StepKeeps(s1, e);
      if Can(s1, e) {
        StepConserves(s1, e);
        ListsNext(s, es, e);
        assert Apply(s1, e) == After(s, events);
        Assoc(Sent(s.replies), s.buffered, Written(es), Shows(e));
        Assoc(Answered(s.replies), Waiting(s), Polls(es), if e.Poll? then [e.http] else []);
      } else {
        assert es + [] == es;
      }
    }
  }

  lemma KeptEnds(s: State)
    requires Kept(s)
    ensures s.finished <==> s.done && s.buffered == []
    ensures s.finished ==> Waiting(s) == []
  {
  }

  lemma OpenedLists(id: nat)
    ensures var s := Opened(id);
      Kept(s) && Sent(s.replies) == [] && Answered(s.replies) == [id] && Waiting(s) == [] && s.buffered == []
  {
    SentNext([], Reply(id, []));
    assert [] + [Reply(id, [])] == [Reply(id, [])];
  }

  /** Of a new session: whoever asked first was answered at once, with nothing. */
  lemma SessionConserves(id: nat, events: seq<Event>)
    ensures var r := After(Opened(id), events); var es := Happened(Opened(id), events);
      && Kept(r)
      && Sent(r.replies) + r.buffered == Written(es)
      && Answered(r.replies) + Waiting(r) == [id] + Polls(es)
      && (r.finished ==> Sent(r.replies) == Written(es) && Answered(r.replies) == [id] + Polls(es))
  {
    var s := Opened(id);
    OpenedLists(id);
    hide Sent, Answered, After, Happened, Written, Polls, Kept, Waiting;
    RunConserves(s, events);
    var es := Happened(s, events);
    assert Sent(s.replies) + s.buffered + Written(es) == Written(es);
    assert Answered(s.replies) + Waiting(s) + Polls(es) == [id] + Polls(es);
    var r := After(s, events);
    if r.finished {
      KeptEnds(r);
      assert Sent(r.replies) + [] == Sent(r.replies) && Answered(r.replies) + [] == Answered(r.replies);
    }
  }

  // Events that all happen.
  predicate AllCan(s: State, events: seq<Event>) {
    forall i :: 0 <= i < |events| ==> Can(After(s, events[..i]), events[i])
  }

  lemma AllCanNext(s: State, init: seq<Event>, e: Event)
    requires AllCan(s, init + [e])
    ensures AllCan(s, init) && Can(After(s, init), e)
  {
    hide Can, After;
    var events := init + [e];
    forall i | 0 <= i < |init|
      ensures Can(After(s, init[..i]), init[i])
    {
      assert events[..i] == init[..i] && Can(After(s, events[..i]), events[i]);
    }
    assert events[..|init|] == init && Can(After(s, events[..|init|]), events[|init|]);
  }

  lemma {:induction false} AllHappen(s: State, events: seq<Event>)
    requires AllCan(s, events)
    ensures Happened(s, events) == events
  {
    hide Can, After, Happened, AllCan;
    if events == [] {
      ListsNone(s);
    } else {
      var init, e := events[..|events| - 1], events[|events| - 1];
      assert events == init + [e];
      AllCanNext(s, init, e);
      AllHappen(s, init);
      ListsNext(s, init, e);
    }
  }

  // ---- Progress ----

  /** Output goes to a request that waits at once; otherwise the next request takes
      as much of what is buffered as a reply may carry. */
  lemma OutputMoves(s: State, e: Event)
    requires Kept(s) && Can(s, e)
    ensures e.Output? && s.http.Some? ==>
      Apply(s, e) == s.(http := None, replies := s.replies + [Reply(s.http.value, e.bytes)])
    ensures e.Poll? && s.buffered != [] ==>
      var n := Least(|s.buffered|, MAX_RESPONSE); var r := Apply(s, e);
      && r.replies == s.replies + [Reply(e.http, s.buffered[..n])] && r.buffered == s.buffered[n..]
      && r.http == None && r.done == s.done && (r.finished <==> s.done && |s.buffered| <= MAX_RESPONSE)
    ensures e.Poll? && s.buffered == [] ==>
      var r := Apply(s, e);
      && r.http == Some(e.http) && r.buffered == [] && !r.finished
      && r.replies == s.replies + if s.http.Some? then [Reply(s.http.value, [])] else []
  {
    assert s.buffered + [] == s.buffered && s.buffered[..|s.buffered|] == s.buffered;
    if e.Output? && s.http.Some? {
      assert s.buffered + e.bytes == e.bytes && e.bytes[..|e.bytes|] == e.bytes;
    }
  }

  // Requests, and nothing else.
  function Requests(ids: seq<nat>): seq<Event> {
    seq(|ids|, i requires 0 <= i < |ids| => Poll(ids[i]))
  }

  lemma DropTwice(b: seq<Byte>, i: nat, j: nat)
    requires i + j <= |b|
    ensures b[i..][j..] == b[i + j..]
  {
  }

  // What is left of `b` after a number of full replies.
  function Left(b: seq<Byte>, count: nat): seq<Byte> {
    b[Least(|b|, MAX_RESPONSE * count)..]
  }

  lemma LeftNext(b: seq<Byte>, count: nat)
    ensures var left := Left(b, count); Left(b, count + 1) == left[Least(|left|, MAX_RESPONSE)..]
  {
    var n := Least(|b|, MAX_RESPONSE * count);
    DropTwice(b, n, Least(|b| - n, MAX_RESPONSE));
  }

  lemma LeftEnds(b: seq<Byte>, count: nat)
    ensures Left(b, 0) == b && (Left(b, count) == [] <==> |b| <= MAX_RESPONSE * count)
  {
  }

  lemma DrainsOnce(s: State, id: nat)
    requires Kept(s) && s.done
    ensures var r := Step(s, Poll(id));
      && Kept(r) && r.done && r.buffered == s.buffered[Least(|s.buffered|, MAX_RESPONSE)..]
  {
    hide Give, Short;
    StepKeeps(s, Poll(id));
    if s.finished {
      assert s.buffered == [] && s.buffered[0..] == [];
    } else {
      OutputMoves(s, Poll(id));
    }
  }

  /** Once the child is gone, each request takes the next 2048 bytes, and the last one
      that finds any ends the session. */
  lemma {:induction false} Drains(s: State, ids: seq<nat>)
    requires Kept(s) && s.done
    ensures var r := After(s, Requests(ids));
      && Kept(r) && r.done && r.buffered == Left(s.buffered, |ids|)
      && (r.finished <==> |s.buffered| <= MAX_RESPONSE * |ids|)
  {
    hide Step, After, Kept, Left;
    if ids == [] {
      assert Requests(ids) == [];
      ListsNone(s);
    } else {
      var init, id := ids[..|ids| - 1], ids[|ids| - 1];
      Drains(s, init);
      assert Requests(ids) == Requests(init) + [Poll(id)];
      ListsNext(s, Requests(init), Poll(id));
      DrainsOnce(After(s, Requests(init)), id);
      LeftNext(s.buffered, |init|);
    }
    LeftEnds(s.buffered, |ids|);
    KeptEnds(After(s, Requests(ids)));
  }

  // ---- The program ----

  class Session {
    var http: Option<nat>
    var done: bool
    var buffered: Option<seq<Byte>>
    var len: nat
    var finished: bool
    var replies: seq<Reply>       // what went out, so far

    ghost function Pending(): seq<Byte>
      reads this
    {
      if buffered.Some? then buffered.value else []
    }

    ghost function Abs(): State
      reads this
    {
      State(http, done, Pending(), finished, replies)
    }

    // Output is buffered exactly if there is some.
    ghost predicate Tracked()
      reads this
    {
      (buffered.Some? <==> len > 0) && len == |Pending()|
    }

    ghost predicate Valid()
      reads this
    {
      Tracked() && Kept(Abs())
    }

    /** dataHandler, for a request that opens a session. */
    constructor (id: nat)
      ensures Valid() && Abs() == Opened(id)
    {
      http, done, buffered, len, finished, replies := Some(id), false, None, 0, false, [];
      new;
      var more := CompletePendingRequest([], MAX_RESPONSE);
    }

    /** completePendingRequest: sends what there is to a waiting request, up to a
        limit, or else keeps it.  Returns whether the session goes on. */
    method CompletePendingRequest(buf: seq<Byte>, maxLength: nat) returns (more: bool)
      requires Tracked() && !finished && 0 < maxLength
      modifies `http, `buffered, `len, `finished, `replies
      ensures Tracked() && Abs() == Give(old(Abs()), buf, maxLength)
      ensures more == !finished
    {
      if http == None {
        Keep(buf);
      } else {
        var data := TakeData(buf, maxLength);
        replies := replies + [Reply(http.value, data)];
        http := None;
      }
      if done && buffered == None {
        finished := true;
        return false;
      }
      return true;
    }

    // Without a request, output is kept.
    method Keep(buf: seq<Byte>)
      requires Tracked()
      modifies `buffered, `len
      ensures Tracked() && Pending() == old(Pending()) + buf
    {
      if |buf| > 0 {
        if buffered.Some? {
          buffered := Some(buffered.value + buf);
          len := len + |buf|;
        } else {
          buffered := Some(buf);
          len := |buf|;
        }
      }
    }

    // Takes up to `maxLength` bytes of what is buffered, and of what follows it.
    method TakeData(buf: seq<Byte>, maxLength: nat) returns (data: seq<Byte>)
      requires Tracked() && 0 < maxLength
      modifies `buffered, `len
      ensures Tracked()
      ensures var all := old(Pending()) + buf; var n := Least(|all|, maxLength);
        data == all[..n] && Pending() == all[n..]
    {
      if buffered.Some? {
        buffered := Some(buffered.value + buf);
        len := len + |buf|;
        if len > maxLength {
          data := buffered.value[..maxLength];
          len := len - maxLength;
          buffered := Some(buffered.value[maxLength..]);
        } else {
          data := buffered.value;
          buffered := None;
          len := 0;
        }
      } else {
        if |buf| > maxLength {
          len := |buf| - maxLength;
          buffered := Some(buf[maxLength..]);
          data := buf[..maxLength];
        } else {
          data := buf;
        }
      }
    }

    /** sessionDone: the child is gone. */
    method SessionDone()
      requires Valid() && !done && !finished
      modifies this
      ensures Valid() && Abs() == Apply(old(Abs()), Hangup)
    {
      StepKeeps(Abs(), Hangup);
      done := true;
      var more := CompletePendingRequest([], INT_MAX);
    }

    /** handleSession: the child wrote something. */
    method HandleSession(bytes: seq<Byte>)
      requires Valid() && Can(Abs(), Output(bytes))
      modifies this
      ensures Valid() && Abs() == Apply(old(Abs()), Output(bytes)) && !finished
    {
      StepKeeps(Abs(), Output(bytes));
      var more := CompletePendingRequest(bytes, MAX_RESPONSE);
      assert more;
    }

    /** The polling part of dataHandler.  It refuses a request whose session ends just
        before, which cannot happen. */
    method HandlePoll(id: nat) returns (ok: bool)
      requires Valid() && !finished
      modifies this
      ensures Valid() && Abs() == Apply(old(Abs()), Poll(id)) && ok
      ensures old(buffered).Some? ==>
        http == None && replies == old(replies) + [Reply(id, old(Pending())[..Least(old(len), MAX_RESPONSE)])]
      ensures old(buffered) == None ==>
        http == Some(id) && replies == old(replies) + if old(http).Some? then [Reply(old(http).value, [])] else []
    {
      StepKeeps(Abs(), Poll(id));
      OutputMoves(Abs(), Poll(id));
      if http.Some? {
        var more := CompletePendingRequest([], MAX_RESPONSE);
        if !more {
          return false;
        }
      }
      http := Some(id);
      if buffered.Some? {
        var more := CompletePendingRequest([], MAX_RESPONSE);
      }
      return true;
    }

    /** The part of dataHandler for keys: when the child does not take them, the
        user hears a bell. */
    method HandleKeys(full: bool)
      requires Valid() && !finished
      modifies this
      ensures Valid() && Abs() == Apply(old(Abs()), Keys(full))
    {
      StepKeeps(Abs(), Keys(full));
      if full {
        var more := CompletePendingRequest([BELL], MAX_RESPONSE);
      }
    }

    // The most that is read from the child at once.
    method ReadSize() returns (limit: nat)
      requires Valid()
      ensures limit == ReadLimit(Abs())
    {
      limit := if MAX_RESPONSE <= len then 1 else MAX_RESPONSE - len;
    }

    method Handle(e: Event)
      requires Valid()
      modifies this
      ensures Valid() && Abs() == Step(old(Abs()), e)
    {
      if !finished {
        match e
        case Output(bytes) =>
          var limit := ReadSize();
          if !done && 0 < |bytes| <= limit {
            HandleSession(bytes);
          }
        case Hangup =>
          if !done {
            SessionDone();
          }
        case Poll(id) =>
          var ok := HandlePoll(id);
        case Keys(full) =>
          HandleKeys(full);
      }
    }

    /** Any sequence of events, as far as they can happen. */
    method Run(events: seq<Event>)
      requires Valid()
      modifies this
      ensures Valid() && Abs() == After(old(Abs()), events)
    {
      hide Step;
      for i := 0 to |events|
        invariant Valid() && Abs() == After(old(Abs()), events[..i])
      {
        assert events[..i + 1][..i] == events[..i];
        Handle(events[i]);
      }
      assert events[..|events|] == events;
    }
  }
}
