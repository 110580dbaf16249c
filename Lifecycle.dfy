/** The HTTP server's lifecycle (main/main.c:151-196): start_webserver,
    stop_webserver, and the connectivity callbacks connect_handler and
    disconnect_handler, which start the server on a "got IP" event when no
    server is running and stop it on a "disconnected" event when one is.

    Step and Run give the handle and the platform calls after one event or a
    sequence of events; Guarded is an independent statement of the discipline
    the two null checks keep (a start is only attempted with no listener
    live, a stop only with one live), and the lemmas prove that every event
    sequence keeps it, so that at most one listener is ever live. The Server
    class is the callbacks' shared handle and is proved to follow Step. */
module Lifecycle {
  import opened Esp

  /** httpd_handle_t: a reference to a running HTTP server. */
  datatype Handle = Handle(id: nat)

  /** A connectivity event. For Connected, startOk and given say what
      httpd_start would report and hand back if it were called. */
  datatype Conn = Connected(startOk: bool, given: Handle) | Disconnected

  const ROOT_URI: string := "/"
  const CAM_URI: string := "/cam"

  /** 1 when a handle is held, 0 when it is NULL. */
  function Occupied(s: Option<Handle>): nat {
    if s.Some? then 1 else 0
  }

  /** The calls start_webserver makes. */
  function StartEvents(startOk: bool): seq<Event> {
    [Start(startOk)] + (if startOk then [RegisterGet(ROOT_URI), RegisterGet(CAM_URI)] else [])
  }

  /** What start_webserver returns. */
  function StartResult(startOk: bool, given: Handle): Option<Handle> {
    if startOk then Some(given) else None
  }

  /** The handle after one event. */
  function Step(s: Option<Handle>, e: Conn): Option<Handle> {
    match e
    case Connected(startOk, given) => if s.None? then StartResult(startOk, given) else s
    case Disconnected => None
  }

  /** The calls one event makes. */
  function StepEvents(s: Option<Handle>, e: Conn): seq<Event> {
    match e
    case Connected(startOk, _) => if s.None? then StartEvents(startOk) else []
    case Disconnected => if s.Some? then [Stop] else []
  }

  /** The handle after a sequence of events. */
  function Run(s: Option<Handle>, es: seq<Conn>): Option<Handle>
    decreases |es|
  {
    if es == [] then s else Run(Step(s, es[0]), es[1..])
  }

  /** The calls a sequence of events makes. */
  function RunEvents(s: Option<Handle>, es: seq<Conn>): seq<Event>
    decreases |es|
  {
    if es == [] then [] else StepEvents(s, es[0]) + RunEvents(Step(s, es[0]), es[1..])
  }

  /** The URIs registered in t, in order. */
  function Routes(t: seq<Event>): seq<string> {
    if t == [] then []
    else (if t[0].RegisterGet? then [t[0].uri] else []) + Routes(t[1..])
  }

  /** How a call changes the number of live listeners. */
  function Delta(e: Event): int {
    if e == Start(true) then 1 else if e == Stop then -1 else 0
  }

  /** Listeners started in t minus listeners stopped in t. */
  function Live(t: seq<Event>): int {
    if t == [] then 0 else Delta(t[0]) + Live(t[1..])
  }

  /** Scanning t from `live` listeners: every start is attempted with none
      live and every stop made with exactly one live. */
  predicate Guarded(live: int, t: seq<Event>)
    decreases |t|
  {
    t == [] ||
    ((t[0].Start? ==> live == 0) && (t[0].Stop? ==> live == 1) && Guarded(live + Delta(t[0]), t[1..]))
  }

  lemma {:induction false} LiveAppend(a: seq<Event>, b: seq<Event>)
    ensures Live(a + b) == Live(a) + Live(b)
  {
    if a == [] {
      assert a + b == b;
    } else {
      assert (a + b)[1..] == a[1..] + b;
      LiveAppend(a[1..], b);
    }
  }

  lemma {:induction false} GuardedAppend(live: int, a: seq<Event>, b: seq<Event>)
    ensures Guarded(live, a + b) <==> Guarded(live, a) && Guarded(live + Live(a), b)
    decreases |a|
  {
    if a == [] {
      assert a + b == b;
    } else {
      assert (a + b)[1..] == a[1..] + b;
      GuardedAppend(live + Delta(a[0]), a[1..], b);
    }
  }

  /** A guarded scan that starts with at most one listener never has fewer
      than none or more than one at any point. */
  lemma {:induction false} GuardedBounds(live: int, t: seq<Event>)
    requires 0 <= live <= 1 && Guarded(live, t)
    ensures forall k :: 0 <= k <= |t| ==> 0 <= live + Live(t[..k]) <= 1
    decreases |t|
  {
    if t != [] {
      var next := live + Delta(t[0]);
      assert 0 <= next <= 1;
      GuardedBounds(next, t[1..]);
      forall k | 0 <= k <= |t| ensures 0 <= live + Live(t[..k]) <= 1 {
        if k > 0 {
          assert t[..k][1..] == t[1..][..k - 1];
        }
      }
    }
  }

  /** A start attempt made with no listener live keeps the discipline and
      leaves one listener live exactly when it succeeded. */
  lemma StartGuarded(startOk: bool)
    ensures Guarded(0, StartEvents(startOk))
    ensures Live(StartEvents(startOk)) == (if startOk then 1 else 0)
  {
    var t := StartEvents(startOk);
    if startOk {
      assert t[1..][1..][1..] == [];
      assert Guarded(1, t[1..][1..]) && Live(t[1..][1..]) == 0;
    } else {
      assert t[1..] == [];
    }
  }

  /** One event keeps the discipline and moves the live count in step with
      the handle. */
  lemma StepGuarded(s: Option<Handle>, e: Conn)
    ensures Guarded(Occupied(s), StepEvents(s, e))
    ensures Occupied(s) + Live(StepEvents(s, e)) == Occupied(Step(s, e))
  {
    match e
    case Connected(startOk, _) =>
      if s.None? {
        StartGuarded(startOk);
      }
    case Disconnected =>
      if s.Some? {
        assert StepEvents(s, e) == [Stop] && [Stop][1..] == [];
      }
  }

  /** Any sequence of events keeps the discipline, and the listeners it
      leaves live are exactly those its final handle stands for. */
  lemma {:induction false} RunGuarded(s: Option<Handle>, es: seq<Conn>)
    ensures Guarded(Occupied(s), RunEvents(s, es))
    ensures Occupied(s) + Live(RunEvents(s, es)) == Occupied(Run(s, es))
    decreases |es|
  {
    if es != [] {
      var first := StepEvents(s, es[0]);
      var s' := Step(s, es[0]);
      RunGuarded(s', es[1..]);
      StepGuarded(s, es[0]);
      GuardedAppend(Occupied(s), first, RunEvents(s', es[1..]));
      LiveAppend(first, RunEvents(s', es[1..]));
    }
  }

  /** From a NULL handle, any sequence of connectivity events keeps at most
      one listener live at every moment, and ends with one live exactly
      when the handle is non-NULL. */
  lemma AtMostOneListener(es: seq<Conn>)
    ensures var t := RunEvents(None, es);
      forall k :: 0 <= k <= |t| ==> 0 <= Live(t[..k]) <= 1
    ensures Live(RunEvents(None, es)) == Occupied(Run(None, es))
  {
    RunGuarded(None, es);
    GuardedBounds(0, RunEvents(None, es));
  }

  /** A successful start registers exactly the GET routes "/" and "/cam";
      a failed one registers none. */
  lemma StartRoutes(startOk: bool)
    ensures Routes(StartEvents(startOk)) == (if startOk then [ROOT_URI, CAM_URI] else [])
  {
    var t := StartEvents(startOk);
    if startOk {
      assert t[1..][1..][1..] == [];
      assert Routes(t[1..][1..]) == [CAM_URI];
    }
  }

  /** Connect starts the server only when the handle is NULL and otherwise
      does nothing; a failed start leaves the handle NULL. */
  lemma ConnectGuard(s: Option<Handle>, startOk: bool, given: Handle)
    ensures s.Some? ==> Step(s, Connected(startOk, given)) == s && StepEvents(s, Connected(startOk, given)) == []
    ensures s.None? ==> StepEvents(s, Connected(startOk, given)) == StartEvents(startOk)
    ensures s.None? ==> (Step(s, Connected(startOk, given)).Some? <==> startOk)
  {
  }

  /** Disconnect stops the server only when the handle is non-NULL, and
      always leaves it NULL. */
  lemma DisconnectGuard(s: Option<Handle>)
    ensures Step(s, Disconnected) == None
    ensures StepEvents(s, Disconnected) == (if s.Some? then [Stop] else [])
  {
  }

  /** Once a "got IP" event has left a server running, a second one is a
      no-op; and two such events never leave more than one listener live. */
  lemma ConnectTwice(s: Option<Handle>, ok1: bool, h1: Handle, ok2: bool, h2: Handle)
    ensures Step(s, Connected(ok1, h1)).Some? ==>
      Run(s, [Connected(ok1, h1), Connected(ok2, h2)]) == Step(s, Connected(ok1, h1)) &&
      RunEvents(s, [Connected(ok1, h1), Connected(ok2, h2)]) == StepEvents(s, Connected(ok1, h1))
    ensures Occupied(s) + Live(RunEvents(s, [Connected(ok1, h1), Connected(ok2, h2)])) <= 1
  {
    var es := [Connected(ok1, h1), Connected(ok2, h2)];
    var s1 := Step(s, es[0]);
    assert es[1..] == [Connected(ok2, h2)] && es[1..][1..] == [];
    assert RunEvents(s1, es[1..]) == StepEvents(s1, es[1]) + RunEvents(Step(s1, es[1]), []);
    assert Run(s1, es[1..]) == Run(Step(s1, es[1]), []);
    RunGuarded(s, es);
    if s1.Some? {
      assert StepEvents(s1, es[1]) == [];
    }
  }

  /** Two "disconnected" events in a row stop the server at most once and
      leave the handle NULL. */
  lemma DisconnectTwice(s: Option<Handle>)
    ensures Run(s, [Disconnected, Disconnected]) == None
    ensures RunEvents(s, [Disconnected, Disconnected]) == (if s.Some? then [Stop] else [])
  {
    var es := [Disconnected, Disconnected];
    assert es[1..] == [Disconnected] && es[1..][1..] == [];
  }

  /** The server handle the connectivity callbacks share, with the HTTP
      stack's calls and its number of live listeners. */
  class Server {
    var server: Option<Handle>
    ghost var trace: seq<Event>
    ghost var live: nat

    ghost predicate Valid()
      reads this
    {
      live == Occupied(server) && Guarded(0, trace) && Live(trace) == live
    }

    constructor ()
      ensures Valid() && server == None && trace == []
    {
      server := None;
      trace := [];
      live := 0;
    }

    /** start_webserver; startOk and given are what httpd_start reports and
        hands back. */
    method StartWebserver(startOk: bool, given: Handle) returns (h: Option<Handle>)
      modifies this`trace, this`live
      ensures h == StartResult(startOk, given)
      ensures trace == old(trace) + StartEvents(startOk)
      ensures live == old(live) + (if startOk then 1 else 0)
    {
      trace := trace + [Start(startOk)];
      if startOk {
        live := live + 1;
        trace := trace + [RegisterGet(ROOT_URI)];
        trace := trace + [RegisterGet(CAM_URI)];
        return Some(given);
      }
      return None;
    }

    /** stop_webserver. */
    method StopWebserver(h: Handle)
      requires live > 0
      modifies this`trace, this`live
      ensures trace == old(trace) + [Stop]
      ensures live == old(live) - 1
    {
      trace := trace + [Stop];
      live := live - 1;
    }

    /** connect_handler. */
    method ConnectHandler(startOk: bool, given: Handle)
      requires Valid()
      modifies this
      ensures Valid()
      ensures server == Step(old(server), Connected(startOk, given))
      ensures trace == old(trace) + StepEvents(old(server), Connected(startOk, given))
    {
      if server.None? {
        ghost var before := trace;
        server := StartWebserver(startOk, given);
        StartGuarded(startOk);
        GuardedAppend(0, before, StartEvents(startOk));
        LiveAppend(before, StartEvents(startOk));
      }
    }

    /** disconnect_handler. */
    method DisconnectHandler()
      requires Valid()
      modifies this
      ensures Valid()
      ensures server == Step(old(server), Disconnected)
      ensures trace == old(trace) + StepEvents(old(server), Disconnected)
    {
      if server.Some? {
        ghost var before := trace;
        StopWebserver(server.value);
        server := None;
        StepGuarded(old(server), Disconnected);
        GuardedAppend(0, before, [Stop]);
        LiveAppend(before, [Stop]);
      }
    }
  }
}
