/** server.c: the bookkeeping of the event loop.  Every connection has an entry in
    two parallel arrays; entry 0 of `pollFds` is the listening socket's. */
module ServerLoop {

  datatype PollFd = PollFd(fd: int, events: nat, revents: nat)

  // A connection; `id` stands for its handlers and their argument.
  datatype Connection = Connection(id: nat, timeout: nat, deleted: bool)

  datatype Pair = Pair(poll: PollFd, connection: Connection)

  const POLLIN: nat := 1

  function Zip(polls: seq<PollFd>, connections: seq<Connection>): (pairs: seq<Pair>)
    requires |polls| == |connections| + 1
    ensures |pairs| == |connections|
  {
    seq(|connections|, i requires 0 <= i < |connections| => Pair(polls[i + 1], connections[i]))
  }

  function Live(pairs: seq<Pair>): (r: seq<Pair>)
    ensures |r| <= |pairs|
  {
    if pairs == [] then []
    else if pairs[0].connection.deleted then Live(pairs[1..])
    else [pairs[0]] + Live(pairs[1..])
  }

  // The first live connection with a file descriptor, or the number of connections.
  function FirstLive(pairs: seq<Pair>, fd: int): (i: nat)
    ensures i <= |pairs| && (i < |pairs| ==> pairs[i].poll.fd == fd && !pairs[i].connection.deleted)
    ensures forall j :: 0 <= j < i ==> pairs[j].poll.fd == fd ==> pairs[j].connection.deleted
  {
    if pairs == [] || (pairs[0].poll.fd == fd && !pairs[0].connection.deleted) then 0
    else 1 + FirstLive(pairs[1..], fd)
  }

  // No two live connections share a file descriptor.
  predicate UniqueFds(pairs: seq<Pair>) {
    forall i, j :: 0 <= i < j < |pairs| && !pairs[i].connection.deleted && !pairs[j].connection.deleted ==>
      pairs[i].poll.fd != pairs[j].poll.fd
  }

  /** The least timeout that is set, or -1. */
  ghost predicate LeastTimeout(pairs: seq<Pair>, timeout: int) {
    if timeout < 0 then timeout == -1 && forall i :: 0 <= i < |pairs| ==> pairs[i].connection.timeout == 0
    else
      && timeout > 0
      && (exists i :: 0 <= i < |pairs| && pairs[i].connection.timeout == timeout)
      && forall i :: 0 <= i < |pairs| && pairs[i].connection.timeout != 0 ==> timeout <= pairs[i].connection.timeout
  }

  lemma LeastNext(pairs: seq<Pair>, n: nat, timeout: int)
    requires n < |pairs| && LeastTimeout(pairs[..n], timeout)
    ensures var t := pairs[n].connection.timeout;
      LeastTimeout(pairs[..n + 1], if t != 0 && (timeout < 0 || timeout > t) then t else timeout)
  {
    var a, b := pairs[..n], pairs[..n + 1];
    assert b == a + [pairs[n]];
    if timeout >= 0 {
      var i :| 0 <= i < |a| && a[i].connection.timeout == timeout;
      assert b[i] == a[i];
    }
    assert b[n] == pairs[n];
  }

  // An entry without events, exchanged for the last one that is not known to be.
  lemma SwappedBack(p: seq<Pair>, i: nat, j: nat)
    requires i <= j < |p| && p[i].poll.events == 0 && forall k :: j < k < |p| ==> p[k].poll.events == 0
    ensures var r := p[i := p[j]][j := p[i]];
      && multiset(r) == multiset(p) && r[..i] == p[..i]
      && forall k :: j <= k < |p| ==> r[k].poll.events == 0
  {
  }

  // The entries of `before` in another order, the first `i` as they were, and none from
  // `n` on that expects events.
  ghost predicate Emptied(before: seq<Pair>, p: seq<Pair>, i: nat, n: nat) {
    && |p| == |before| && i <= |p| && multiset(p) == multiset(before) && p[..i] == before[..i]
    && forall k :: n <= k < |p| ==> p[k].poll.events == 0
  }

  lemma EmptiedNext(before: seq<Pair>, p: seq<Pair>, i: nat, j: nat)
    requires Emptied(before, p, i, j + 1) && i <= j < |p| && p[i].poll.events == 0
    ensures Emptied(before, p[i := p[j]][j := p[i]], i, j)
  {
    SwappedBack(p, i, j);
  }

  // One more element moved down over a gap.
  lemma Shifted(p: seq<Pair>, i: nat, k: nat)
    requires i <= k && k + 1 < |p|
    ensures var q := p[..i] + p[i + 1..k + 1] + p[k..];
      q[k + 1] == p[k + 1] && q[k := q[k + 1]] == p[..i] + p[i + 1..k + 2] + p[k + 1..]
  {
  }

  lemma GapClosed(p: seq<Pair>, i: nat)
    requires i < |p|
    ensures var n := |p| - 1; (p[..i] + p[i + 1..n + 1] + p[n..])[..n] == p[..i] + p[i + 1..]
    ensures p == p[..i] + p[i + 1..i + 1] + p[i..]
  {
  }

  lemma LiveStep(p: seq<Pair>, i: nat)
    requires i < |p|
    ensures p[..i] + Live(p[i..])
      == if p[i].connection.deleted then p[..i] + Live(p[i + 1..]) else p[..i + 1] + Live(p[i + 1..])
  {
    assert p[i..][1..] == p[i + 1..];
  }

  lemma LiveEnd(p: seq<Pair>)
    ensures p[..|p|] + Live(p[|p|..]) == p
  {
  }

  lemma CutAt(p: seq<Pair>, i: nat)
    requires i < |p|
    ensures var q := p[..i] + p[i + 1..]; q[..i] == p[..i] && q[i..] == p[i + 1..]
  {
  }

  lemma FirstIs(p: seq<Pair>, i: nat, fd: int)
    requires i < |p| && p[i].poll.fd == fd && !p[i].connection.deleted
    requires forall j :: 0 <= j < i ==> p[j].poll.fd == fd ==> p[j].connection.deleted
    ensures FirstLive(p, fd) == i
  {
  }

  lemma OnlyLive(p: seq<Pair>, i: nat, fd: int)
    requires i < |p| && p[i].poll.fd == fd && !p[i].connection.deleted
    ensures UniqueFds(p) ==> FirstLive(p, fd) == i
  {
    var n := FirstLive(p, fd);
    if n < i {
      assert p[n].poll.fd == fd;
    }
  }

  // ---- One round of events ----

  // What a connection's handler does: whether the connection stays open, and the
  // events that it expects next.
  type Handler = (Connection, nat) -> (bool, nat)

  // Entries that an event was reported for.
  function Reported(p: seq<Pair>): nat {
    if p == [] then 0 else (if p[0].poll.revents != 0 then 1 else 0) + Reported(p[1..])
  }

  // Those from `i` on, among the `polled` ones.
  function ReportedFrom(p: seq<Pair>, i: nat, polled: nat): nat
    requires polled <= |p|
  {
    if i < polled then Reported(p[i..polled]) else 0
  }

  // What was reported for an entry; entries that were not polled hold old reports.
  function Report(p: seq<Pair>, i: nat, polled: nat): nat
    requires i < |p|
  {
    if i < polled then p[i].poll.revents else 0
  }

  /** The connections to handle: those with an event, and, while the round lasts,
      those that timed out. */
  predicate Due(p: seq<Pair>, i: nat, polled: nat, isTimeout: bool, now: nat)
    requires i < |p| && polled <= |p|
  {
    var c := p[i].connection;
    && !c.deleted
    && (Report(p, i, polled) != 0
        || (c.timeout != 0 && now >= c.timeout && (isTimeout || ReportedFrom(p, i, polled) > 0)))
  }

  function Handled(p: seq<Pair>, i: nat, polled: nat, isTimeout: bool, now: nat, handle: Handler): Pair
    requires i < |p| && polled <= |p|
  {
    var c := p[i].connection;
    if !Due(p, i, polled, isTimeout, now) then p[i]
    else if handle(c, Report(p, i, polled)).0
    then p[i].(poll := p[i].poll.(events := handle(c, Report(p, i, polled)).1))
    else p[i].(connection := c.(deleted := true))
  }

  // Equal but for old reports.
  predicate SameEntry(a: Pair, b: Pair) {
    a.connection == b.connection && a.poll.fd == b.poll.fd && a.poll.events == b.poll.events
  }

  lemma ReportedStep(p: seq<Pair>, i: nat, polled: nat)
    requires i < |p| && polled <= |p|
    ensures ReportedFrom(p, i, polled)
      == ReportedFrom(p, i + 1, polled) + if i < polled && p[i].poll.revents != 0 then 1 else 0
  {
    if i < polled {
      assert p[i..polled][1..] == p[i + 1..polled];
    }
  }

  // After the last event, and unless there may be timeouts, nothing is due.
  lemma {:induction false} NothingDue(p: seq<Pair>, i: nat, k: nat, polled: nat, now: nat)
    requires i <= k < |p| && polled <= |p| && ReportedFrom(p, i, polled) == 0
    ensures !Due(p, k, polled, false, now)
    decreases k - i
  {
    ReportedStep(p, i, polled);
    if i < k {
      NothingDue(p, i + 1, k, polled, now);
    }
  }

  lemma {:induction false} ReportedSome(p: seq<Pair>)
    ensures Reported(p) > 0 <==> exists k :: 0 <= k < |p| && p[k].poll.revents != 0
  {
    if p != [] {
      ReportedSome(p[1..]);
      assert forall k :: 0 < k < |p| ==> p[k] == p[1..][k - 1];
    }
  }

  /** A connection is handled for its own event; and when its time is over, if the round
      is one for timeouts or some event, of its own or of a later connection, is still to
      be handled. */
  lemma DueMeans(p: seq<Pair>, i: nat, polled: nat, isTimeout: bool, now: nat)
    requires i < |p| && polled <= |p|
    ensures var c := p[i].connection;
      Due(p, i, polled, isTimeout, now)
      <==> !c.deleted
           && ((i < polled && p[i].poll.revents != 0)
               || (c.timeout != 0 && now >= c.timeout
                   && (isTimeout || exists k :: i <= k < polled && p[k].poll.revents != 0)))
  {
    hide Reported;
    if i < polled {
      ReportedSome(p[i..polled]);
      assert forall k :: i <= k < polled ==> p[k] == p[i..polled][k - i];
    }
  }

  class Server {
    var pollFds: array<PollFd>
    var connections: array<Connection>
    var numConnections: nat

    ghost predicate Valid()
      reads this
    {
      connections.Length >= numConnections && pollFds.Length >= numConnections + 1
    }

    /** The connections, each with its own poll entry. */
    ghost function Pairs(): (p: seq<Pair>)
      requires Valid()
      reads this, pollFds, connections
      ensures |p| == numConnections
    {
      Zip(pollFds[..numConnections + 1], connections[..numConnections])
    }

    lemma PairAt(i: nat)
      requires Valid() && i < numConnections
      ensures Pairs()[i] == Pair(pollFds[i + 1], connections[i])
    {
    }

    constructor (serverFd: int)
      ensures Valid() && Pairs() == [] && fresh(pollFds) && fresh(connections)
    {
      pollFds := new PollFd[1](_ => PollFd(serverFd, POLLIN, 0));
      connections := new Connection[0];
      numConnections := 0;
    }

    /** serverAddConnection: the arrays grow by one entry each. */
    method Add(fd: int, id: nat, stale: nat)
      requires Valid()
      modifies this
      ensures Valid() && fresh(pollFds) && fresh(connections) && pollFds[0] == old(pollFds[0])
      ensures Pairs() == old(Pairs()) + [Pair(PollFd(fd, POLLIN, stale), Connection(id, 0, false))]
    {
      var n := numConnections + 1;
      var polls, cs := pollFds, connections;
      var newPolls := new PollFd[n + 1](i requires 0 <= i < n + 1 reads polls =>
        if i < n && i < polls.Length then polls[i] else PollFd(fd, POLLIN, stale));
      var newConnections := new Connection[n](i requires 0 <= i < n reads cs =>
        if i < n - 1 && i < cs.Length then cs[i] else Connection(id, 0, false));
      pollFds, connections, numConnections := newPolls, newConnections, n;
    }

    // Exchanges two connections, together with their poll entries.
    method Swap(i: nat, j: nat)
      requires Valid() && i < numConnections && j < numConnections
      modifies pollFds, connections
      ensures Valid() && pollFds[0] == old(pollFds[0])
      ensures Pairs() == old(Pairs())[i := old(Pairs())[j]][j := old(Pairs())[i]]
    {
      ghost var p := Pairs();
      ghost var q := p[i := p[j]][j := p[i]];
      assert forall k :: 0 <= k < numConnections ==> p[k] == Pair(pollFds[k + 1], connections[k]);
      pollFds[j + 1], pollFds[i + 1] := pollFds[i + 1], pollFds[j + 1];
      connections[j], connections[i] := connections[i], connections[j];
      forall k | 0 <= k < numConnections
        ensures Pairs()[k] == q[k]
      {
        PairAt(k);
      }
    }

    // Moves connections that expect no events behind `numFds`, until one that does
    // is at `i`.
    method FillFrom(i: nat, numFds0: nat) returns (numFds: nat)
      requires Valid() && i < numConnections && 1 <= numFds0 <= numConnections + 1
      requires Emptied(Pairs(), Pairs(), i, numFds0 - 1)
      modifies pollFds, connections
      ensures Valid() && pollFds[0] == old(pollFds[0]) && 1 <= numFds <= numFds0
      ensures Emptied(old(Pairs()), Pairs(), i, numFds - 1)
      ensures i < numFds - 1 ==> Pairs()[i].poll.events != 0
    {
      hide Zip, Emptied;
      numFds := numFds0;
      PairAt(i);
      while i + 1 < numFds && pollFds[i + 1].events == 0
        invariant Valid() && pollFds[0] == old(pollFds[0]) && 1 <= numFds <= numFds0
        invariant Emptied(old(Pairs()), Pairs(), i, numFds - 1)
        invariant Pairs()[i] == Pair(pollFds[i + 1], connections[i])
      {
        EmptiedNext(old(Pairs()), Pairs(), i, numFds - 2);
        numFds := numFds - 1;
        Swap(i, numFds - 1);
        PairAt(i);
      }
    }

    /** Sorts the connections that expect no events to the end, and finds the
        earliest timeout of all. */
    method Partition() returns (numFds: nat, timeout: int)
      requires Valid()
      modifies pollFds, connections
      ensures Valid() && pollFds[0] == old(pollFds[0]) && 1 <= numFds <= numConnections + 1
      ensures multiset(Pairs()) == multiset(old(Pairs()))
      ensures forall k :: 0 <= k < numConnections ==> (Pairs()[k].poll.events != 0 <==> k < numFds - 1)
      ensures LeastTimeout(Pairs(), timeout)
    {
      hide Zip;
      numFds, timeout := numConnections + 1, -1;
      for i := 0 to numConnections
        invariant Valid() && pollFds[0] == old(pollFds[0]) && 1 <= numFds <= numConnections + 1
        invariant multiset(Pairs()) == multiset(old(Pairs()))
        invariant forall k :: numFds - 1 <= k < numConnections ==> Pairs()[k].poll.events == 0
        invariant forall k :: 0 <= k < i && k < numFds - 1 ==> Pairs()[k].poll.events != 0
        invariant LeastTimeout(Pairs()[..i], timeout)
      {
        ghost var before := Pairs();
        numFds := FillFrom(i, numFds);
        assert forall k :: 0 <= k < i ==> Pairs()[k] == before[k] by {
          assert forall k :: 0 <= k < i ==> Pairs()[k] == Pairs()[..i][k] && before[k] == before[..i][k];
        }
        LeastNext(Pairs(), i, timeout);
        PairAt(i);
        if connections[i].timeout != 0 && (timeout < 0 || timeout > connections[i].timeout) {
          timeout := connections[i].timeout;
        }
      }
      assert Pairs()[..numConnections] == Pairs();
    }

    // One connection of a memmove, together with its poll entry.
    method CopyDown(k: nat)
      requires Valid() && k + 1 < numConnections
      modifies pollFds, connections
      ensures Valid() && pollFds[0] == old(pollFds[0]) && Pairs() == old(Pairs())[k := old(Pairs())[k + 1]]
    {
      pollFds[k + 1] := pollFds[k + 2];
      connections[k] := connections[k + 1];
    }

    method DropLast()
      requires Valid() && numConnections > 0
      modifies `numConnections
      ensures Valid() && numConnections == old(numConnections) - 1 && Pairs() == old(Pairs())[..numConnections]
    {
      numConnections := numConnections - 1;
    }

    // The connection at `i` is dropped; those behind it move up.
    method DropAt(i: nat)
      requires Valid() && i < numConnections
      modifies pollFds, connections, `numConnections
      ensures Valid() && numConnections == old(numConnections) - 1 && pollFds[0] == old(pollFds[0])
      ensures Pairs() == old(Pairs())[..i] + old(Pairs())[i + 1..]
    {
      hide Zip;
      ghost var p := Pairs();
      GapClosed(p, i);
      for k := i to numConnections - 1
        invariant Valid() && numConnections == |p| && pollFds[0] == old(pollFds[0])
        invariant Pairs() == p[..i] + p[i + 1..k + 1] + p[k..]
      {
        CopyDown(k);
        Shifted(p, i, k);
      }
      DropLast();
    }

    /** Drops the deleted connections, and keeps all others in order. */
    method Compact()
      requires Valid()
      modifies pollFds, connections, `numConnections
      ensures Valid() && pollFds[0] == old(pollFds[0]) && Pairs() == Live(old(Pairs()))
    {
      hide Zip, Live;
      var i := 0;
      assert Pairs()[0..] == Pairs() && Pairs()[..0] == [];
      while i < numConnections
        invariant i <= numConnections && Valid() && pollFds[0] == old(pollFds[0])
        invariant Pairs()[..i] + Live(Pairs()[i..]) == Live(old(Pairs()))
        decreases numConnections - i
      {
        LiveStep(Pairs(), i);
        PairAt(i);
        if connections[i].deleted {
          CutAt(Pairs(), i);
          DropAt(i);
        } else {
          i := i + 1;
        }
      }
      LiveEnd(Pairs());
    }

    /** The live connection with a file descriptor.  A hint is only a guess: it need
        not even be the position of a connection. */
    method GetConnection(hint: int, fd: int) returns (found: int)
      requires Valid()
      ensures found == -1 ==> FirstLive(Pairs(), fd) == numConnections
      ensures found != -1 ==>
        && 0 <= found < numConnections && Pairs()[found].poll.fd == fd && !Pairs()[found].connection.deleted
        && (UniqueFds(Pairs()) ==> found == FirstLive(Pairs(), fd))
    {
      if 0 <= hint < numConnections {
        if !connections[hint].deleted && pollFds[hint + 1].fd == fd {
          OnlyLive(Pairs(), hint, fd);
          return hint;
        }
      }
      for i := 0 to numConnections
        invariant forall j :: 0 <= j < i ==> Pairs()[j].poll.fd == fd ==> Pairs()[j].connection.deleted
      {
        if pollFds[i + 1].fd == fd && !connections[i].deleted {
          FirstIs(Pairs(), i, fd);
          return i;
        }
      }
      return -1;
    }

    /** Marks the first live connection with a file descriptor as deleted. */
    method Delete(fd: int)
      requires Valid()
      modifies connections
      ensures Valid()
      ensures var p := old(Pairs()); var i := FirstLive(p, fd);
        Pairs() == if i == |p| then p else p[i := p[i].(connection := p[i].connection.(deleted := true))]
    {
      for i := 0 to numConnections
        invariant Pairs() == old(Pairs())
        invariant forall j :: 0 <= j < i ==> Pairs()[j].poll.fd == fd ==> Pairs()[j].connection.deleted
      {
        if fd == pollFds[i + 1].fd && !connections[i].deleted {
          FirstIs(Pairs(), i, fd);
          connections[i] := connections[i].(deleted := true);
          return;
        }
      }
    }

    // One connection that is due.
    method HandleOne(i: nat, handle: Handler)
      requires Valid() && i < numConnections
      modifies pollFds, connections
      ensures Valid() && pollFds[0] == old(pollFds[0])
      ensures var p := old(Pairs()[i]); var (keep, events) := handle(p.connection, p.poll.revents);
        Pairs() == old(Pairs())[i := if keep then p.(poll := p.poll.(events := events))
                                     else p.(connection := p.connection.(deleted := true))]
    {
      var (keep, events) := handle(connections[i], pollFds[i + 1].revents);
      if !keep {
        connections[i] := connections[i].(deleted := true);
      } else if events != pollFds[i + 1].events {
        pollFds[i + 1] := pollFds[i + 1].(events := events);
      }
    }

    // One connection of a round, with so many events still to come.
    method Visit(i: nat, events: nat, now: nat, handle: Handler) returns (eventCount: nat)
      requires Valid() && i < numConnections
      modifies pollFds, connections
      ensures Valid() && pollFds[0] == old(pollFds[0]) && Pairs() == old(Pairs())[i := Pairs()[i]]
      ensures var p := old(Pairs()[i]); var c := p.connection; var report := if events == 0 then 0 else p.poll.revents;
        && eventCount == events - (if !c.deleted && report != 0 then 1 else 0)
        && SameEntry(Pairs()[i],
             if c.deleted || (report == 0 && (c.timeout == 0 || now < c.timeout)) then p
             else if handle(c, report).0 then p.(poll := p.poll.(events := handle(c, report).1))
             else p.(connection := c.(deleted := true)))
    {
      eventCount := events;
      if connections[i].deleted {
        return;
      }
      if eventCount == 0 {
        pollFds[i + 1] := pollFds[i + 1].(revents := 0);
      }
      if pollFds[i + 1].revents != 0 || (connections[i].timeout != 0 && now >= connections[i].timeout) {
        if pollFds[i + 1].revents != 0 {
          eventCount := eventCount - 1;
        }
        HandleOne(i, handle);
      }
    }

    /** Handles the connections that an event was reported for, and those that timed
        out.  The number of events tells when to stop: connections that were not
        polled may hold reports of an earlier round. */
    method Dispatch(isTimeout: bool, events: nat, now: nat, polled: nat, handle: Handler)
      requires Valid() && polled <= numConnections && events == ReportedFrom(Pairs(), 0, polled)
      requires forall k :: 0 <= k < polled && Pairs()[k].connection.deleted ==> Pairs()[k].poll.revents == 0
      modifies pollFds, connections
      ensures Valid() && pollFds[0] == old(pollFds[0])
      ensures forall k :: 0 <= k < numConnections ==>
        SameEntry(Pairs()[k], Handled(old(Pairs()), k, polled, isTimeout, now, handle))
    {
      ghost var p := Pairs();
      var eventCount, i := events, 0;
      while (isTimeout || eventCount > 0) && i < numConnections
        invariant Valid() && pollFds[0] == old(pollFds[0]) && i <= numConnections
        invariant eventCount == ReportedFrom(p, i, polled)
        invariant forall k :: 0 <= k < i ==> SameEntry(Pairs()[k], Handled(p, k, polled, isTimeout, now, handle))
        invariant Pairs()[i..] == p[i..]
      {
        ReportedStep(p, i, polled);
        ghost var q := Pairs();
        assert q[i..][0] == p[i..][0];
        eventCount := Visit(i, eventCount, now, handle);
        assert Pairs()[i + 1..] == q[i..][1..] == p[i + 1..];
        i := i + 1;
      }
      forall k | i <= k < numConnections
        ensures SameEntry(Pairs()[k], Handled(p, k, polled, isTimeout, now, handle))
      {
        assert Pairs()[i..][k - i] == p[i..][k - i];
        NothingDue(p, i, k, polled, now);
      }
    }
  }
}
