/** The bytes that flow through a stream socket: what sends accept, what receives deliver, and what a whole run of both
    does. */
module StreamData {
  import opened Basics

  /** The bytes of an iovec list, one after the other. */
  function Flat(iov: seq<seq<Byte>>): (s: seq<Byte>)
    ensures iov == [] ==> s == []
  {
    if iov == [] then [] else Flat(iov[..|iov| - 1]) + iov[|iov| - 1]
  }

  function Sum(lengths: seq<nat>): nat {
    if lengths == [] then 0 else Sum(lengths[..|lengths| - 1]) + lengths[|lengths| - 1]
  }

  /** What a send with this much room accepts: the longest prefix of its bytes that fits. */
  function Accepted(iov: seq<seq<Byte>>, room: nat): (s: seq<Byte>)
    ensures |s| <= room && s <= Flat(iov)
  {
    Flat(iov)[..Min(|Flat(iov)|, room)]
  }

  /** What a receive with these iovec lengths delivers: the oldest bytes that fit. */
  function Delivered(contents: seq<Byte>, lengths: seq<nat>): (s: seq<Byte>)
    ensures |s| <= |contents| && s == contents[..|s|]
  {
    contents[..Min(Sum(lengths), |contents|)]
  }

  lemma FlatStep(iov: seq<seq<Byte>>, i: nat)
    requires i < |iov|
    ensures Flat(iov[..i + 1]) == Flat(iov[..i]) + iov[i]
  {
    assert iov[..i + 1][..i] == iov[..i];
  }

  /** Buffering one iovec more, as far as the room goes, accepts what the longer list would. */
  lemma AcceptedStep(iov: seq<seq<Byte>>, i: nat, room: nat)
    requires i < |iov|
    ensures var n := Min(|iov[i]|, room - |Accepted(iov[..i], room)|);
      Accepted(iov[..i + 1], room) == Accepted(iov[..i], room) + iov[i][..n]
  {
    FlatStep(iov, i);
  }

  /** Filling one iovec more from what is left delivers what the longer list would. */
  lemma DeliveredStep(contents: seq<Byte>, lengths: seq<nat>, i: nat)
    requires i < |lengths|
    ensures var done := Delivered(contents, lengths[..i]);
      var rest := contents[|done|..];
      && Delivered(contents, lengths[..i + 1]) == done + rest[..Min(lengths[i], |rest|)]
      && contents[|Delivered(contents, lengths[..i + 1])|..] == rest[Min(lengths[i], |rest|)..]
  {
    assert lengths[..i + 1][..i] == lengths[..i];
  }

  lemma AcceptedNone(iov: seq<seq<Byte>>, room: nat)
    ensures Flat(iov[..0]) == [] && Accepted(iov[..0], room) == []
  {
  }

  lemma DeliveredNone(contents: seq<Byte>, lengths: seq<nat>)
    ensures Delivered(contents, lengths[..0]) == []
  {
  }

  lemma {:induction false} SumPrefix(lengths: seq<nat>, i: nat)
    requires i <= |lengths|
    ensures Sum(lengths[..i]) <= Sum(lengths)
    decreases |lengths|
  {
    if i < |lengths| {
      SumPrefix(lengths[..|lengths| - 1], i);
      assert lengths[..|lengths| - 1][..i] == lengths[..i];
    } else {
      assert lengths[..i] == lengths;
    }
  }

  /** Once everything is delivered, the iovecs left do not matter. */
  lemma DeliveredAll(contents: seq<Byte>, lengths: seq<nat>, i: nat)
    requires i <= |lengths| && |Delivered(contents, lengths[..i])| == |contents|
    ensures Delivered(contents, lengths) == Delivered(contents, lengths[..i]) == contents
  {
    SumPrefix(lengths, i);
  }

  // ----- Runs

  /** One direction of a connection. `accepted` and `delivered` record all that was sent and received. */
  datatype Channel =
    Channel(capacity: nat, contents: seq<Byte>, accepted: seq<Byte>, delivered: seq<Byte>, open: bool)

  datatype Event = Send(iov: seq<seq<Byte>>) | Receive(lengths: seq<nat>) | Close

  ghost predicate Conserved(c: Channel) {
    |c.contents| <= c.capacity && c.delivered + c.contents == c.accepted
  }

  function Step(c: Channel, e: Event): Channel
    requires |c.contents| <= c.capacity
  {
    match e
    case Send(iov) =>
      if !c.open then c else
      var bytes := Accepted(iov, c.capacity - |c.contents|);
      c.(contents := c.contents + bytes, accepted := c.accepted + bytes)
    case Receive(lengths) =>
      var bytes := Delivered(c.contents, lengths);
      c.(contents := c.contents[|bytes|..], delivered := c.delivered + bytes)
    case Close =>
      c.(open := false)
  }

  function Run(c: Channel, events: seq<Event>): (r: Channel)
    requires |c.contents| <= c.capacity
    ensures |r.contents| <= r.capacity
    decreases |events|
  {
    if events == [] then c else Step(Run(c, events[..|events| - 1]), events[|events| - 1])
  }

  lemma StepConserves(c: Channel, e: Event)
    requires Conserved(c)
    ensures var r := Step(c, e);
      Conserved(r) && r.capacity == c.capacity && c.accepted <= r.accepted && c.delivered <= r.delivered
  {
    hide Flat, Sum, Accepted, Delivered;
    if e.Receive? {
      var bytes := Delivered(c.contents, e.lengths);
      assert c.contents == bytes + c.contents[|bytes|..];
      assert (c.delivered + bytes) + c.contents[|bytes|..] == c.delivered + c.contents;
    }
  }

  /** In every run the bytes delivered, then the bytes buffered, are the bytes accepted, in order. So a receive that
      has room and still gets nothing, as the end of a closed connection, has missed nothing. */
  lemma {:induction false} RunConserves(c: Channel, events: seq<Event>, lengths: seq<nat>)
    requires Conserved(c)
    ensures var r := Run(c, events);
      && Conserved(r) && r.capacity == c.capacity
      && c.accepted <= r.accepted && c.delivered <= r.delivered <= r.accepted
      && (Sum(lengths) > 0 && Delivered(r.contents, lengths) == [] ==> r.delivered == r.accepted)
    decreases |events|
  {
    hide Step;
    if events != [] {
      RunConserves(c, events[..|events| - 1], lengths);
      StepConserves(Run(c, events[..|events| - 1]), events[|events| - 1]);
    }
  }

  /** The total that a run of receives has room for. */
  function Capacity(events: seq<Event>): nat {
    if events == [] then 0 else
    Capacity(events[..|events| - 1]) + match events[|events| - 1] { case Receive(lengths) => Sum(lengths) case _ => 0 }
  }

  /** However a reader cuts its reads, receives on a closed connection deliver the buffered bytes in order, and all of
      them once there was room for all. */
  lemma {:induction false} DrainsInOrder(c: Channel, events: seq<Event>)
    requires |c.contents| <= c.capacity && !c.open
    ensures var r := Run(c, events);
      var n := Min(Capacity(events), |c.contents|);
      && r.delivered == c.delivered + c.contents[..n] && r.contents == c.contents[n..]
      && r.accepted == c.accepted && !r.open
    decreases |events|
  {
    hide Step, Sum;
    if events != [] {
      var front, last := events[..|events| - 1], events[|events| - 1];
      DrainsInOrder(c, front);
      DrainsStep(c, Run(c, front), Min(Capacity(front), |c.contents|), last);
    }
  }

  lemma DrainsStep(c: Channel, r: Channel, n: nat, e: Event)
    requires n <= |c.contents| <= c.capacity && |r.contents| <= r.capacity
    requires r.delivered == c.delivered + c.contents[..n] && r.contents == c.contents[n..] && !r.open
    ensures var r' := Step(r, e);
      var n' := Min(n + if e.Receive? then Sum(e.lengths) else 0, |c.contents|);
      && r'.delivered == c.delivered + c.contents[..n'] && r'.contents == c.contents[n'..]
      && r'.accepted == r.accepted && !r'.open
  {
    hide Sum, Flat;
    if e.Receive? {
      var m := |Delivered(r.contents, e.lengths)|;
      assert c.contents[..n + m] == c.contents[..n] + c.contents[n..][..m];
      assert c.contents[n..][m..] == c.contents[n + m..];
    }
  }

  /** Sending two lists one after the other accepts what sending them as one would: where a writer cuts its bytes does
      not matter. */
  lemma {:induction false} SendsConcatenate(a: seq<seq<Byte>>, b: seq<seq<Byte>>, room: nat)
    ensures |Accepted(a, room)| <= room
    ensures Accepted(a + b, room) == Accepted(a, room) + Accepted(b, room - |Accepted(a, room)|)
    decreases |b|
  {
    FlatConcatenates(a, b);
  }

  lemma FlatAppend(iov: seq<seq<Byte>>, last: seq<Byte>)
    ensures Flat(iov + [last]) == Flat(iov) + last
  {
    assert (iov + [last])[..|iov|] == iov;
  }

  lemma {:induction false} FlatConcatenates(a: seq<seq<Byte>>, b: seq<seq<Byte>>)
    ensures Flat(a + b) == Flat(a) + Flat(b)
    decreases |b|
  {
    hide Flat;
    if b == [] {
      assert a + b == a;
    } else {
      var init, last := b[..|b| - 1], b[|b| - 1];
      FlatConcatenates(a, init);
      assert b == init + [last] && a + b == (a + init) + [last];
      FlatAppend(init, last);
      FlatAppend(a + init, last);
    }
  }
}
