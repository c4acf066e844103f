/** From the child to the screen: its output is cut into replies, escaped, read by
    the browser, and shown reply by reply. */
module EndToEnd {
  import opened Bytes
  import opened TermSpec
  import Json
  import Session
  import TermFacts

  // What the browser reads in a reply.
  function Heard(data: seq<Byte>): seq<nat> {
    match Json.ReadString(Json.EscapeAll(data))
    case Some(s) => s
    case None => []
  }

  // The terminal after a list of replies, one call of vt100 for each.
  function Shown(c: Config, t: Term, replies: seq<Session.Reply>): (r: Term)
    requires Sound(c, t)
    ensures Sound(c, r)
  {
    if replies == [] then t
    else Process(c, Shown(c, t, replies[..|replies| - 1]), Heard(replies[|replies| - 1].data), false)
  }

  lemma {:induction false} RepliesAreShown(c: Config, t: Term, replies: seq<Session.Reply>)
    requires Sound(c, t)
    ensures Shown(c, t, replies) == Process(c, t, Session.Sent(replies), false)
    decreases |replies|
  {
    hide Process, Replies, Json.EscapeAll, Json.ReadString, Sound;
    if replies == [] {
      TermFacts.ProcessNothing(c, t, false);
    } else {
      var init, last := replies[..|replies| - 1], replies[|replies| - 1];
      RepliesAreShown(c, t, init);
      Json.RoundTrip(last.data);
      TermFacts.ProcessConcat(c, t, Session.Sent(init), last.data, false);
    }
  }

  /** Over every run of a session, the screen and what is still buffered make what the
      child's output as a whole would make, and in the end the screen alone does:
      no matter how it was buffered, cut and escaped, in the middle of characters and
      control sequences included. */
  lemma OutputIsShown(c: Config, t: Term, id: nat, events: seq<Session.Event>)
    requires Sound(c, t)
    ensures var s := Session.Opened(id); var r := Session.After(s, events);
      var all := Session.Written(Session.Happened(s, events));
      && Process(c, Shown(c, t, r.replies), r.buffered, false) == Process(c, t, all, false)
      && (r.finished ==> Shown(c, t, r.replies) == Process(c, t, all, false))
  {
    hide Process, Replies, Sound, Session.After, Session.Happened, Session.Written, Session.Sent, Session.Answered;
    var r := Session.After(Session.Opened(id), events);
    Session.SessionConserves(id, events);
    RepliesAreShown(c, t, r.replies);
    TermFacts.ProcessConcat(c, t, Session.Sent(r.replies), r.buffered, false);
  }
}
