/**
 * The web server of the Arduino firmware (`web_server.cpp`): each accepted
 * client gets a request handler that collects the bytes of an HTTP request
 * until the blank line ending its header, a CRLF CRLF, and then posts the
 * request (or, if the client went away first, its failure) to the main
 * loop; a handler the main loop has answered is marked dead and dropped at
 * the next poll.
 *
 * The network is a parameter: how many clients `available()` hands out in
 * a poll, and for each handler whether its client is `connected()` and the
 * bytes `available()` then.  A `WiFiClient` is identified by its handler,
 * which is what the address comparison in `web_server_request_completed`
 * amounts to.  The handler list, linked through `next` in the firmware, is
 * a sequence.
 */
module WebServer {

  // ------------------------------------------------------ the request parser

  datatype ParseState = Text | CR | CRLF | CRLFCR | CRLFCRLF

  /** The blank line that ends a request header. */
  const Terminator: string := "\r\n\r\n"

  /** One byte of `poll`'s switch, for the states that do not end the request. */
  function Next(s: ParseState, c: char): ParseState {
    match s
    case Text => if c == '\r' then CR else Text
    case CR => if c == '\n' then CRLF else if c == '\r' then CR else Text
    case CRLF => if c == '\r' then CRLFCR else Text
    case CRLFCR => if c == '\n' then CRLFCRLF else if c == '\r' then CR else Text
    case CRLFCRLF => Text
  }

  /** The state that has seen the first `k` bytes of the terminator. */
  function StateOf(k: nat): ParseState
    requires k <= 4
  {
    [Text, CR, CRLF, CRLFCR, CRLFCRLF][k]
  }

  /** `w` ends with the first `k` bytes of the terminator. */
  predicate EndsWith(w: string, k: nat)
    requires k <= 4
  {
    k == 0 || (|w| >= 1 && w[|w| - 1] == Terminator[k - 1] && EndsWith(w[..|w| - 1], k - 1))
  }

  /** How much of the terminator the end of `w` holds: the longest end of `w` that the terminator begins with. */
  function Progress(w: string): (k: nat)
    ensures k <= 4 && EndsWith(w, k)
    ensures forall j: nat :: k < j <= 4 ==> !EndsWith(w, j)
  {
    if EndsWith(w, 4) then 4
    else if EndsWith(w, 3) then 3
    else if EndsWith(w, 2) then 2
    else if EndsWith(w, 1) then 1
    else 0
  }

  /** An end of `w + [c]` is an end of `w` followed by `c`. */
  lemma SuffixStep(w: string, c: char, j: nat)
    requires 1 <= j <= 4
    ensures EndsWith(w + [c], j) <==> EndsWith(w, j - 1) && c == Terminator[j - 1]
  {
    assert (w + [c])[..|w|] == w;
  }

  /**
   * The switch of `poll` tracks how much of the terminator the bytes read
   * so far end with: from the state for `w`, byte `c` leads to the state
   * for `w + [c]`.
   */
  lemma NextTracks(w: string, c: char)
    requires Progress(w) < 4
    ensures Next(StateOf(Progress(w)), c) == StateOf(Progress(w + [c]))
  {
    SuffixStep(w, c, 1);
    SuffixStep(w, c, 2);
    SuffixStep(w, c, 3);
    SuffixStep(w, c, 4);
    assert Terminator[0] == '\r' && Terminator[1] == '\n' && Terminator[2] == '\r' && Terminator[3] == '\n';
    hide EndsWith;
  }

  // ---------------------------------------------------------- one handler

  /** What `poll` posts to the main loop. */
  datatype Event = NoEvent | WebRequest(request: string) | WebRequestFailed(request: string)

  /** The fields of a `WebRequestHandler`, the client aside. */
  datatype Handling = Handling(state: ParseState, request: string, dead: bool, complete: bool)

  /** What the client offers at a poll: whether it is connected, and the bytes available. */
  datatype Traffic = Traffic(connected: bool, bytes: string)

  /** A handler that is still reading: its state is how much of the terminator its request ends with. */
  predicate Reading(h: Handling) {
    !h.complete && Progress(h.request) < 4 && h.state == StateOf(Progress(h.request))
  }

  /**
   * The inner loop of `poll`: the bytes are read one by one and appended to
   * the request until the state machine ends it, with the byte that ended
   * it not appended; `n` is the count of bytes read.
   */
  function Feed(h: Handling, bytes: string): (Handling, Event, nat)
    decreases |bytes|
  {
    if bytes == [] then (h, NoEvent, 0)
    else
      var c := bytes[0];
      if h.state == CRLFCRLF then (h.(state := Text, complete := true), WebRequestFailed(h.request), 1)
      else if h.state == CRLFCR && c == '\n' then (h.(state := CRLFCRLF, complete := true), WebRequest(h.request), 1)
      else
        var r := Feed(h.(state := Next(h.state, c), request := h.request + [c]), bytes[1..]);
        (r.0, r.1, r.2 + 1)
  }

  /**
   * Every byte read is appended to the request except the one that ends it;
   * the request posted is the one collected, and a successful one ends with
   * the LF that brought the handler to CRLFCRLF.
   */
  lemma {:induction false} FeedCollects(h: Handling, bytes: string)
    ensures var r := Feed(h, bytes);
      && r.2 <= |bytes| && r.0.dead == h.dead
      && (r.1.NoEvent? ==> r.2 == |bytes| && r.0.request == h.request + bytes && r.0.complete == h.complete)
      && (!r.1.NoEvent? ==> 0 < r.2 && r.0.complete && r.0.request == h.request + bytes[..r.2 - 1] && r.1.request == r.0.request)
      && (r.1.WebRequest? ==> bytes[r.2 - 1] == '\n' && r.0.state == CRLFCRLF)
    decreases |bytes|
  {
    if bytes != [] {
      var c := bytes[0];
      if h.state != CRLFCRLF && !(h.state == CRLFCR && c == '\n') {
        var h1 := h.(state := Next(h.state, c), request := h.request + [c]);
        FeedCollects(h1, bytes[1..]);
        var r := Feed(h1, bytes[1..]);
        assert bytes[..r.2 + 1] == [c] + bytes[1..][..r.2];
        assert bytes == [c] + bytes[1..];
      }
    }
  }

  /** `poll(rh)`: a client gone is the end of the request, else the available bytes are read. */
  function PollSpec(h: Handling, t: Traffic): (r: (Handling, Event))
    ensures r.0.dead == h.dead
    ensures r.1 != NoEvent ==> r.0.complete
    ensures !t.connected ==> r.1 != NoEvent
  {
    FeedCollects(h, t.bytes);
    if !t.connected then
      (h.(complete := true), if h.state == CRLFCRLF then WebRequest(h.request) else WebRequestFailed(h.request))
    else
      var (h', ev, _) := Feed(h, t.bytes);
      (h', ev)
  }

  /**
   * A reading handler completes successfully exactly when the bytes it has
   * read end, for the first time, with CRLF CRLF: it posts the request read
   * before the final LF and is complete; otherwise it has read every byte
   * and is still reading.
   */
  lemma {:induction false} FeedReads(h: Handling, bytes: string)
    requires Reading(h)
    ensures var (h', ev, n) := Feed(h, bytes);
      && (ev.NoEvent? ==> Reading(h'))
      && (ev.NoEvent? || ev.WebRequest?)
      && (ev.WebRequest? ==> Progress(h'.request + ['\n']) == 4)
    decreases |bytes|
  {
    if bytes != [] {
      var c := bytes[0];
      NextTracks(h.request, c);
      if !(h.state == CRLFCR && c == '\n') {
        FeedReads(h.(state := Next(h.state, c), request := h.request + [c]), bytes[1..]);
      }
    }
  }

  /** A client that disconnects before the blank line has failed its request, which is complete either way. */
  lemma DisconnectFails(h: Handling, bytes: string)
    requires Reading(h)
    ensures PollSpec(h, Traffic(false, bytes)) == (h.(complete := true), WebRequestFailed(h.request))
  {
  }

  /** `rh->state` and the other fields of a handler. */
  class Handler {
    var state: ParseState
    var request: string
    var dead: bool
    var complete: bool

    function Fields(): Handling
      reads this
    {
      Handling(state, request, dead, complete)
    }

    /** A handler for a new client: reading text, nothing collected. */
    constructor ()
      ensures Fields() == Handling(Text, "", false, false) && Reading(Fields())
    {
      state, request, dead, complete := Text, "", false, false;
    }

    /** `poll(rh)`. */
    method Poll(t: Traffic) returns (ev: Event)
      modifies this
      ensures (Fields(), ev) == PollSpec(old(Fields()), t)
    {
      if !t.connected {
        complete := true;
        return if state == CRLFCRLF then WebRequest(request) else WebRequestFailed(request);
      }
      var i := 0;
      while i < |t.bytes|
        invariant i <= |t.bytes| && complete == old(complete)
        invariant Feed(old(Fields()), t.bytes).0 == Feed(Fields(), t.bytes[i..]).0
        invariant Feed(old(Fields()), t.bytes).1 == Feed(Fields(), t.bytes[i..]).1
        invariant dead == old(dead)
      {
        var c := t.bytes[i];
        assert t.bytes[i..][1..] == t.bytes[i + 1..];
        if state == CRLFCRLF {
          state := Text;
          complete := true;
          return WebRequestFailed(request);
        }
        if state == CRLFCR && c == '\n' {
          state := CRLFCRLF;
          complete := true;
          return WebRequest(request);
        }
        state := Next(state, c);
        request := request + [c];
        i := i + 1;
      }
      ev := NoEvent;
    }
  }

  // ------------------------------------------------------------ the server

  /** A handler is polled only while it is neither complete nor dead. */
  function Polled(h: Handling, t: Traffic): (r: (Handling, Event))
    ensures r.1 != NoEvent ==> r.0.complete && !h.complete && !h.dead
    ensures r.0.dead == h.dead
    ensures h.complete || h.dead ==> r == (h, NoEvent)
  {
    if !h.complete && !h.dead then PollSpec(h, t) else (h, NoEvent)
  }

  /** `complete` is set whenever a request is posted, so a handler posts at most once. */
  lemma PostsOnce(h: Handling, t: Traffic, t': Traffic)
    requires Polled(h, t).1 != NoEvent
    ensures Polled(Polled(h, t).0, t') == (Polled(h, t).0, NoEvent)
  {
  }

  /** What the client of handler `h` offers at this poll; a client the network says nothing about is connected and silent. */
  function TrafficAt(traffic: map<Handler, Traffic>, h: Handler): Traffic {
    if h in traffic then traffic[h] else Traffic(true, "")
  }

  /** An event posted to the main loop, with the handler whose client it came from. */
  datatype Message = Message(event: Event, handler: Handler)

  /** The events posted when the handlers `hs`, in the states `before`, are polled in order. */
  function Posts(hs: seq<Handler>, before: seq<Handling>, traffic: map<Handler, Traffic>): seq<Message>
    requires |hs| == |before|
  {
    if hs == [] then []
    else
      var n := |hs| - 1;
      var ev := Polled(before[n], TrafficAt(traffic, hs[n])).1;
      Posts(hs[..n], before[..n], traffic) + (if ev == NoEvent then [] else [Message(ev, hs[n])])
  }

  lemma PostsNone(hs: seq<Handler>, before: seq<Handling>, traffic: map<Handler, Traffic>)
    requires |hs| == |before|
    ensures Posts(hs[..0], before[..0], traffic) == []
  {
  }

  /** Polling one more handler appends its event, if any. */
  lemma PostsStep(hs: seq<Handler>, before: seq<Handling>, traffic: map<Handler, Traffic>, i: nat)
    requires |hs| == |before| && i < |hs|
    ensures var ev := Polled(before[i], TrafficAt(traffic, hs[i])).1;
      Posts(hs[..i + 1], before[..i + 1], traffic)
      == Posts(hs[..i], before[..i], traffic) + (if ev == NoEvent then [] else [Message(ev, hs[i])])
  {
    assert hs[..i + 1][..i] == hs[..i] && before[..i + 1][..i] == before[..i];
  }

  /** Every posted event comes from a handler that was neither complete nor dead, and is its own poll's event. */
  lemma {:induction false} PostsFromLive(hs: seq<Handler>, before: seq<Handling>, traffic: map<Handler, Traffic>, m: Message)
    requires |hs| == |before| && m in Posts(hs, before, traffic)
    ensures exists i :: (0 <= i < |hs| && hs[i] == m.handler && !before[i].complete && !before[i].dead
      && m.event == Polled(before[i], TrafficAt(traffic, hs[i])).1 != NoEvent)
  {
    var n := |hs| - 1;
    if m !in Posts(hs[..n], before[..n], traffic) {
      assert hs[n] == m.handler;
    } else {
      PostsFromLive(hs[..n], before[..n], traffic, m);
      var i :| 0 <= i < n && hs[..n][i] == m.handler && !before[..n][i].complete && !before[..n][i].dead
        && m.event == Polled(before[..n][i], TrafficAt(traffic, hs[..n][i])).1 != NoEvent;
      assert hs[i] == m.handler && before[i] == before[..n][i];
    }
  }

  /** The fields of the handlers `hs`. */
  ghost function Snapshot(hs: seq<Handler>): (s: seq<Handling>)
    reads set h | h in hs
    ensures |s| == |hs| && forall i :: 0 <= i < |hs| ==> s[i] == hs[i].Fields()
  {
    if hs == [] then [] else Snapshot(hs[..|hs| - 1]) + [hs[|hs| - 1].Fields()]
  }

  /** The handlers of `hs` that are not dead, in their order. */
  ghost function Live(hs: seq<Handler>): seq<Handler>
    reads set h | h in hs
  {
    if hs == [] then [] else Live(hs[..|hs| - 1]) + (if hs[|hs| - 1].dead then [] else [hs[|hs| - 1]])
  }

  /** The collection keeps exactly the handlers that are not dead. */
  lemma {:induction false} LiveMembers(hs: seq<Handler>, h: Handler)
    ensures h in Live(hs) <==> h in hs && !h.dead
  {
    if hs != [] {
      LiveMembers(hs[..|hs| - 1], h);
      assert hs == hs[..|hs| - 1] + [hs[|hs| - 1]];
    }
  }

  /** The collection keeps the order of the handlers it keeps. */
  lemma {:induction false} LiveConcat(a: seq<Handler>, b: seq<Handler>)
    ensures Live(a + b) == Live(a) + Live(b)
    decreases |b|
  {
    if b == [] {
      assert a + b == a;
    } else {
      var n := |b| - 1;
      assert (a + b)[..|a + b| - 1] == a + b[..n];
      LiveConcat(a, b[..n]);
    }
  }

  /** The handlers that the collection keeps are as distinct as the handlers it was given. */
  lemma {:induction false} LiveDistinct(hs: seq<Handler>)
    requires Distinct(hs)
    ensures Distinct(Live(hs))
  {
    if hs != [] {
      var n := |hs| - 1;
      LiveDistinct(hs[..n]);
      LiveMembers(hs[..n], hs[n]);
    }
  }

  predicate Distinct(hs: seq<Handler>) {
    forall i, j :: 0 <= i < j < |hs| ==> hs[i] != hs[j]
  }

  /** The fields of the handler made for a newly accepted client. */
  const Arrival := Handling(Text, "", false, false)

  /** The fields of `n` new handlers followed by those of the handlers `hs`. */
  ghost function Arrivals(n: nat, hs: seq<Handler>): (s: seq<Handling>)
    reads set h | h in hs
    ensures |s| == n + |hs|
  {
    seq(n, _ => Arrival) + Snapshot(hs)
  }

  /**
   * The server: `web_server` (here `running` and `port`) and the list of
   * request handlers, newest first.
   */
  class Server {
    var running: bool
    var port: int
    var handlers: seq<Handler>

    /** Each client has one handler. */
    predicate Valid()
      reads this
    {
      Distinct(handlers)
    }

    /** No server yet. */
    constructor ()
      ensures Valid() && !running && handlers == []
    {
      running, port, handlers := false, 0, [];
    }

    /** `web_server_init`: a second server is refused (the firmware panics) and changes nothing. */
    method Init(p: int) returns (ok: bool)
      modifies this
      ensures ok == !old(running) && running
      ensures port == (if ok then p else old(port)) && handlers == old(handlers)
    {
      if running {
        return false;
      }
      running, port := true, p;
      return true;
    }

    /** The accept loop of `web_server_poll`: each new client gets a fresh handler at the front of the list. */
    method Accept(n: nat)
      requires Valid()
      modifies this
      ensures Valid() && running == old(running) && port == old(port)
      ensures |handlers| == n + |old(handlers)| && handlers[n..] == old(handlers)
      ensures forall i :: 0 <= i < n ==> fresh(handlers[i]) && handlers[i].Fields() == Arrival
    {
      var k := 0;
      while k < n
        invariant k <= n && Valid() && running == old(running) && port == old(port)
        invariant |handlers| == k + |old(handlers)| && handlers[k..] == old(handlers)
        invariant forall i :: 0 <= i < k ==> fresh(handlers[i]) && handlers[i].Fields() == Arrival
      {
        var h := new Handler();
        handlers := [h] + handlers;
        k := k + 1;
        assert handlers[k..] == old(handlers[..]) by {
          assert handlers[1..][k - 1..] == old(handlers);
        }
      }
    }

    /** The traffic loop of `web_server_poll`: every handler that is neither complete nor dead is polled, in order. */
    method PollHandlers(traffic: map<Handler, Traffic>) returns (posts: seq<Message>)
      requires Valid()
      modifies set h | h in handlers
      ensures forall i :: 0 <= i < |handlers| ==>
        handlers[i].Fields() == Polled(old(handlers[i].Fields()), TrafficAt(traffic, handlers[i])).0
      ensures posts == Posts(handlers, old(Snapshot(handlers)), traffic)
    {
      hide Posts, PollSpec, Feed, Snapshot;
      ghost var before := Snapshot(handlers);
      PostsNone(handlers, before, traffic);
      posts := [];
      var i := 0;
      while i < |handlers|
        invariant i <= |handlers|
        invariant forall j :: 0 <= j < i ==> handlers[j].Fields() == Polled(before[j], TrafficAt(traffic, handlers[j])).0
        invariant forall j :: i <= j < |handlers| ==> handlers[j].Fields() == before[j]
        invariant posts == Posts(handlers[..i], before[..i], traffic)
      {
        var h := handlers[i];
        PostsStep(handlers, before, traffic, i);
        if !h.complete && !h.dead {
          var ev := h.Poll(TrafficAt(traffic, h));
          if ev != NoEvent {
            posts := posts + [Message(ev, h)];
          }
        }
        i := i + 1;
      }
      assert handlers[..i] == handlers && before[..i] == before;
    }

    /** The collection loop of `web_server_poll`: the dead handlers are dropped, the others kept in order. */
    method Collect()
      requires Valid()
      modifies this
      ensures Valid() && running == old(running) && port == old(port)
      ensures handlers == Live(old(handlers))
    {
      var kept := [];
      var i := 0;
      while i < |handlers|
        invariant i <= |handlers| && kept == Live(handlers[..i])
      {
        assert handlers[..i + 1][..i] == handlers[..i];
        if !handlers[i].dead {
          kept := kept + [handlers[i]];
        }
        i := i + 1;
      }
      assert handlers[..i] == handlers;
      LiveDistinct(handlers);
      handlers := kept;
    }

    /** `web_server_request_completed`: the handler of the answered client, if the list still holds it, is marked dead. */
    method RequestCompleted(h: Handler)
      modifies h
      ensures h.dead == (old(h.dead) || h in handlers)
      ensures h.state == old(h.state) && h.request == old(h.request) && h.complete == old(h.complete)
    {
      var i := 0;
      while i < |handlers|
        invariant i <= |handlers| && h !in handlers[..i] && h.dead == old(h.dead)
      {
        if handlers[i] == h {
          h.dead := true;
          return;
        }
        assert handlers[..i + 1] == handlers[..i] + [handlers[i]];
        i := i + 1;
      }
      assert handlers[..i] == handlers;
    }

    /**
     * `web_server_poll`: nothing before `web_server_init`; then the new
     * clients get handlers at the front of the list (`accepted`), every
     * handler that is neither complete nor dead is polled in list order and
     * its event posted, and the dead handlers are dropped.
     */
    method Poll(newClients: nat, traffic: map<Handler, Traffic>) returns (posts: seq<Message>, ghost accepted: seq<Handler>)
      requires Valid()
      modifies this, set h | h in handlers
      ensures Valid() && running == old(running) && port == old(port)
      ensures !running ==> posts == [] && handlers == old(handlers) && accepted == old(handlers)
      ensures running ==> |accepted| == newClients + |old(handlers)| && accepted[newClients..] == old(handlers)
      ensures running ==> forall i :: 0 <= i < newClients ==> fresh(accepted[i])
      ensures running ==> posts == Posts(accepted, old(Arrivals(newClients, handlers)), traffic)
      ensures running ==> forall i :: 0 <= i < |accepted| ==>
        accepted[i].Fields() == Polled(old(Arrivals(newClients, handlers))[i], TrafficAt(traffic, accepted[i])).0
      ensures running ==> handlers == Live(accepted)
      ensures running ==> forall h :: h in handlers ==> !h.dead
      ensures forall h :: h in old(handlers) && !old(h.dead) ==> h in handlers
    {
      hide Live, Posts, Polled, PollSpec, Feed, Snapshot;
      accepted := handlers;
      if !running {
        return [], accepted;
      }
      ghost var before := Arrivals(newClients, handlers);
      Accept(newClients);
      accepted := handlers;
      forall i | 0 <= i < |accepted|
        ensures Snapshot(accepted)[i] == before[i]
      {
        if newClients <= i {
          var j := i - newClients;
          assert accepted[i] == old(handlers)[j];
          assert before[i] == old(Snapshot(handlers))[j] == old(handlers[j].Fields());
        }
      }
      assert Snapshot(accepted) == before;
      posts := PollHandlers(traffic);
      Collect();
      forall h | h in handlers
        ensures !h.dead
      {
        LiveMembers(accepted, h);
      }
      forall h | h in old(handlers) && !old(h.dead)
        ensures h in handlers
      {
        var i :| 0 <= i < |old(handlers)| && old(handlers)[i] == h;
        assert accepted[newClients + i] == h && !h.dead;
        LiveMembers(accepted, h);
      }
    }
  }
}
