/** `TcpConnection`: sending, draining, half-closing and closing, for any results of `write`. */
module TcpConnections {
  import opened Basics

  datatype ConnState = Connecting | Connected | Disconnecting | Disconnected

  /** What `::write` may answer. */
  datatype WriteResult =
    | Wrote(n: nat)
    | WouldBlock
    | Fault        // EPIPE or ECONNRESET
    | OtherError

  datatype Callback = WriteComplete | HighWater(size: nat)

  /** The connection as a value.  `wire` is what the kernel took, `accepted` the messages the
      connection took on, `queued` the callbacks handed to the loop. */
  datatype Conn = Conn(
    state: ConnState,
    output: seq<Byte>,
    writing: bool,
    reading: bool,
    writeClosed: bool,
    highWaterMark: nat,
    wire: seq<Byte>,
    accepted: seq<Byte>,
    queued: seq<Callback>)

  function New(highWaterMark: nat): Conn {
    Conn(Connecting, [], false, false, false, highWaterMark, [], [], [])
  }

  // ---------------------------------------------------------------- handlers as functions

  /** A write is tried directly only when nothing waits in front of it. */
  predicate Direct(c: Conn) {
    !c.writing && c.output == []
  }

  function Written(r: WriteResult): nat {
    if r.Wrote? then r.n else 0
  }

  function SendInLoop(c: Conn, data: seq<Byte>, r: WriteResult): Conn
    requires Written(r) <= |data|
  {
    if c.state == Disconnected then c
    else if Direct(c) && r == Fault then c
    else
      var n := if Direct(c) then Written(r) else 0;
      var done := Direct(c) && r.Wrote? && n == |data|;
      var remaining := |data| - n;
      var crossed := 0 < remaining && |c.output| + remaining >= c.highWaterMark && |c.output| < c.highWaterMark;
      c.(wire := c.wire + data[..n], accepted := c.accepted + data,
         output := c.output + data[n..], writing := c.writing || 0 < remaining,
         queued := c.queued + if done then [WriteComplete]
                              else if crossed then [HighWater(|c.output| + remaining)] else [])
  }

  function CloseWrite(c: Conn): Conn {
    c.(writeClosed := true)
  }

  function HandleWrite(c: Conn, r: WriteResult): Conn
    requires Written(r) <= |c.output|
  {
    if !c.writing || Written(r) == 0 then c
    else
      var c1 := c.(wire := c.wire + c.output[..r.n], output := c.output[r.n..]);
      if c1.output != [] then c1
      else
        var c2 := c1.(writing := false, queued := c1.queued + [WriteComplete]);
        if c2.state == Disconnecting then CloseWrite(c2) else c2
  }

  function Shutdown(c: Conn): Conn {
    if c.state != Connected then c
    else
      var c1 := c.(state := Disconnecting);
      if !c1.writing then CloseWrite(c1) else c1
  }

  function HandleClose(c: Conn): Conn {
    c.(state := Disconnected, writing := false, reading := false)
  }

  function ForceClose(c: Conn): Conn {
    if c.state == Connected || c.state == Disconnecting then HandleClose(c.(state := Disconnecting)) else c
  }

  function ConnectEstablished(c: Conn): Conn {
    c.(state := Connected, reading := true)
  }

  function ConnectDestroyed(c: Conn): Conn {
    if c.state == Connected then HandleClose(c) else c
  }

  // ---------------------------------------------------------------- what each handler keeps

  ghost predicate Inv(c: Conn) {
    && c.wire + c.output == c.accepted
    && (c.state != Disconnected ==> (c.writing <==> c.output != []))
    && (c.state == Disconnected ==> !c.writing)
    && (c.state == Disconnecting ==> c.writeClosed || c.output != [])
    && (c.writeClosed ==> c.state == Disconnecting || c.state == Disconnected)
    && (c.state == Connecting ==> c.accepted == [])
    && (c.reading <==> c.state == Connected || c.state == Disconnecting)
  }

  datatype Event =
    | Established
    | Send(data: seq<Byte>, result: WriteResult)
    | Writable(result: WriteResult)
    | ShutdownCalled
    | ForceCloseCalled
    | PeerClosed
    | Destroyed

  predicate Enabled(c: Conn, e: Event) {
    match e
    case Established => c.state == Connecting
    case Send(data, r) => c.state != Connecting && Written(r) <= |data|
    case Writable(r) => Written(r) <= |c.output|
    case ShutdownCalled => true
    case ForceCloseCalled => true
    case PeerClosed => c.state == Connected || c.state == Disconnecting
    case Destroyed => true
  }

  function Next(c: Conn, e: Event): Conn
    requires Enabled(c, e)
  {
    match e
    case Established => ConnectEstablished(c)
    case Send(data, r) => SendInLoop(c, data, r)
    case Writable(r) => HandleWrite(c, r)
    case ShutdownCalled => Shutdown(c)
    case ForceCloseCalled => ForceClose(c)
    case PeerClosed => HandleClose(c)
    case Destroyed => ConnectDestroyed(c)
  }

  lemma StepInv(c: Conn, e: Event)
    requires Inv(c) && Enabled(c, e)
    ensures Inv(Next(c, e))
  {
    match e {
      case Send(data, r) => SendKeepsStream(c, data, r);
      case Writable(r) => WriteKeepsStream(c, r);
      case _ =>
    }
  }

  lemma SendKeepsStream(c: Conn, data: seq<Byte>, r: WriteResult)
    requires Inv(c) && Written(r) <= |data|
    ensures var c' := SendInLoop(c, data, r); c'.wire + c'.output == c'.accepted
  {
    var n := if Direct(c) then Written(r) else 0;
    if c.state != Disconnected && !(Direct(c) && r == Fault) {
      calc {
        c.wire + data[..n] + (c.output + data[n..]);
        == { assert n == 0 || c.output == []; assert n == 0 ==> data[..n] == []; }
        (c.wire + c.output) + (data[..n] + data[n..]);
        == { assert data[..n] + data[n..] == data; }
        c.accepted + data;
      }
    }
  }

  lemma WriteKeepsStream(c: Conn, r: WriteResult)
    requires Inv(c) && Written(r) <= |c.output|
    ensures var c' := HandleWrite(c, r); c'.wire + c'.output == c'.accepted
  {
    assert c.output[..Written(r)] + c.output[Written(r)..] == c.output;
  }

  /** The half-close is issued only when everything accepted is on the wire. */
  lemma ClosesAfterDrain(c: Conn, e: Event)
    requires Inv(c) && Enabled(c, e) && !c.writeClosed && Next(c, e).writeClosed
    ensures var c' := Next(c, e); c'.output == [] && c'.wire == c'.accepted && !c'.writing
  {
    StepInv(c, e);
  }

  // ---------------------------------------------------------------- every run

  /** A schedule the kernel may produce: a half-closed socket takes no byte more; the write of one faults. */
  ghost predicate CanRun(c: Conn, es: seq<Event>)
    decreases |es|
  {
    es == [] ||
    (Enabled(c, es[0])
     && (es[0].Send? && es[0].data != [] && c.writeClosed && Direct(c) ==> es[0].result == Fault)
     && CanRun(Next(c, es[0]), es[1..]))
  }

  ghost function After(c: Conn, es: seq<Event>): Conn
    requires CanRun(c, es)
    decreases |es|
  {
    if es == [] then c else After(Next(c, es[0]), es[1..])
  }

  ghost predicate Complete(c: Conn) {
    c.writeClosed ==> c.output == [] && c.wire == c.accepted
  }

  lemma {:induction false} RunInv(c: Conn, es: seq<Event>)
    requires Inv(c) && Complete(c) && CanRun(c, es)
    ensures Inv(After(c, es)) && Complete(After(c, es))
    decreases |es|
  {
    if es != [] {
      StepInv(c, es[0]);
      if !c.writeClosed && Next(c, es[0]).writeClosed { ClosesAfterDrain(c, es[0]); }
      RunInv(Next(c, es[0]), es[1..]);
    }
  }

  /** For every sequence of calls and write results: the wire carries a prefix of the accepted
      stream and the output buffer the rest; write interest is on exactly while something waits,
      until the connection is down; and once the write side is closed the stream is complete. */
  lemma StreamIntegrity(highWaterMark: nat, es: seq<Event>)
    requires CanRun(New(highWaterMark), es)
    ensures var c := After(New(highWaterMark), es);
      && c.wire + c.output == c.accepted
      && (c.state != Disconnected ==> (c.writing <==> c.output != []))
      && (c.writeClosed ==> c.wire == c.accepted)
      && (c.state == Disconnecting && c.output == [] ==> c.writeClosed)
  {
    RunInv(New(highWaterMark), es);
  }

  // ---------------------------------------------------------------- shutting down

  /** The peer or the owner tears the connection down. */
  predicate Teardown(e: Event) {
    e == PeerClosed || e == ForceCloseCalled
  }

  lemma {:induction false} AfterPrefix(c: Conn, es: seq<Event>, n: nat)
    requires CanRun(c, es) && n <= |es|
    ensures CanRun(c, es[..n]) && CanRun(After(c, es[..n]), es[n..])
    ensures After(c, es) == After(After(c, es[..n]), es[n..])
    decreases n
  {
    hide Enabled, Next, Direct;
    if 0 < n {
      AfterPrefix(Next(c, es[0]), es[1..], n - 1);
      assert es[..n][1..] == es[1..][..n - 1] && es[1..][n - 1..] == es[n..];
    } else {
      assert es[0..] == es;
    }
  }

  lemma ClosingStep(c: Conn, e: Event)
    requires Enabled(c, e) && (c.state == Disconnecting || c.state == Disconnected)
    ensures Next(c, e).state == if c.state == Disconnected || Teardown(e) then Disconnected else Disconnecting
    ensures c.writeClosed ==> Next(c, e).writeClosed
  {
  }

  lemma {:induction false} StaysShut(c: Conn, es: seq<Event>)
    requires CanRun(c, es) && (c.state == Disconnecting || c.state == Disconnected)
    ensures After(c, es).state == Disconnecting || After(c, es).state == Disconnected
    ensures After(c, es).state == Disconnected <==>
      c.state == Disconnected || exists i :: 0 <= i < |es| && Teardown(es[i])
    ensures c.writeClosed ==> After(c, es).writeClosed
    decreases |es|
  {
    hide Enabled, Next, Direct, Teardown;
    if es != [] {
      ClosingStep(c, es[0]);
      StaysShut(Next(c, es[0]), es[1..]);
      assert forall i | 0 < i < |es| :: es[i] == es[1..][i - 1];
      assert forall i | 0 <= i < |es| - 1 :: es[1..][i] == es[i + 1];
    }
  }

  /** The shutdown of a connected connection. */
  ghost predicate AskedAt(c: Conn, es: seq<Event>, n: nat) {
    n < |es| && es[n] == ShutdownCalled && CanRun(c, es[..n]) && After(c, es[..n]).state == Connected
  }

  /** A shutdown of a connected connection is never forgotten: ever after it is closing or closed, it is
      closed only by a teardown, and unless one comes first the write side is closed as soon as nothing
      waits -- at once, if nothing did. */
  lemma ShutdownIsHeard(highWaterMark: nat, es: seq<Event>, n: nat)
    requires CanRun(New(highWaterMark), es) && AskedAt(New(highWaterMark), es, n)
    ensures var c := After(New(highWaterMark), es);
      && (c.state == Disconnecting || c.state == Disconnected)
      && (c.state == Disconnected <==> exists i :: n < i < |es| && Teardown(es[i]))
      && ((forall i | n < i < |es| :: !Teardown(es[i])) && c.output == [] ==> c.writeClosed && c.wire == c.accepted)
  {
    var c0 := New(highWaterMark);
    AfterPrefix(c0, es, n);
    var c := After(c0, es[..n]);
    assert es[n..][0] == es[n] && es[n..][1..] == es[n + 1..];
    var rest := es[n + 1..];
    StaysShut(Next(c, es[n]), rest);
    RunInv(c0, es);
    assert forall i | n < i < |es| :: es[i] == rest[i - n - 1];
    assert forall i | 0 <= i < |rest| :: rest[i] == es[n + 1 + i];
  }

  /** And nothing else closes: a connection is closing, or its write side closed, only after one. */
  lemma {:induction false} ClosingIsAsked(c: Conn, es: seq<Event>)
    requires CanRun(c, es) && !c.writeClosed && c.state != Disconnecting
    ensures After(c, es).writeClosed || After(c, es).state == Disconnecting ==>
      exists n :: 0 <= n < |es| && AskedAt(c, es, n)
    decreases |es|
  {
    if es != [] {
      var c1 := Next(c, es[0]);
      if c.state == Connected && es[0] == ShutdownCalled {
        assert es[..0] == [] && AskedAt(c, es, 0);
      } else {
        ClosingIsAsked(c1, es[1..]);
        if n :| 0 <= n < |es| - 1 && AskedAt(c1, es[1..], n) {
          assert es[..n + 1][0] == es[0] && es[..n + 1][1..] == es[1..][..n];
          assert AskedAt(c, es, n + 1);
        }
      }
    }
  }

  /** What `handleWrite` is told was written goes from the output to the wire, and nothing else does. */
  lemma WriteMoves(c: Conn, r: WriteResult)
    requires Inv(c) && Enabled(c, Writable(r)) && c.state != Disconnected
    ensures var c' := Next(c, Writable(r)); var n := if r.Wrote? then r.n else 0;
      |c'.output| == |c.output| - n && c'.output == c.output[n..] && c'.wire == c.wire + c.output[..n]
  {
    assert c.output == [] ==> c.output[0..] == c.output && c.output[..0] == [];
  }

  /** A message goes straight to the wire as far as the kernel takes it, but behind what waits. */
  lemma SendMoves(c: Conn, data: seq<Byte>, r: WriteResult)
    requires Inv(c) && Enabled(c, Send(data, r)) && c.state != Disconnected && (c.output == [] ==> r != Fault)
    ensures var c' := Next(c, Send(data, r)); var n := if c.output == [] && r.Wrote? then r.n else 0;
      c'.wire == c.wire + data[..n] && c'.output == c.output + data[n..] && c'.accepted == c.accepted + data
  {
  }

  function Sum(ns: seq<nat>): nat {
    if ns == [] then 0 else ns[0] + Sum(ns[1..])
  }

  function Writes(ns: seq<nat>): seq<Event> {
    if ns == [] then [] else [Writable(Wrote(ns[0]))] + Writes(ns[1..])
  }

  /** Writes of as many bytes as wait, in whatever portions, drain the output; a connection that is
      shutting down is half-closed then. */
  lemma {:induction false} DrainsOut(c: Conn, ns: seq<nat>)
    requires Inv(c) && (c.state == Connected || c.state == Disconnecting) && Sum(ns) == |c.output|
    ensures CanRun(c, Writes(ns)) && After(c, Writes(ns)).state == c.state
    ensures var d := After(c, Writes(ns)); d.output == [] && d.wire == c.accepted == d.accepted && !d.writing
    ensures c.state == Disconnecting ==> After(c, Writes(ns)).writeClosed
    decreases |ns|
  {
    if ns != [] {
      var e := Writable(Wrote(ns[0]));
      StepInv(c, e);
      WriteMoves(c, Wrote(ns[0]));
      hide Inv;
      DrainsOut(Next(c, e), ns[1..]);
      assert Writes(ns)[0] == e && Writes(ns)[1..] == Writes(ns[1..]);
    }
  }

  /** A force close brings a connection down that was up, whatever waits, and the peer's close does. */
  lemma TeardownCloses(c: Conn, e: Event)
    requires Enabled(c, e) && Teardown(e) && (c.state == Connected || c.state == Disconnecting)
    ensures var c' := Next(c, e);
      && c'.state == Disconnected && !c'.writing && !c'.reading
      && c'.wire == c.wire && c'.accepted == c.accepted && c'.writeClosed == c.writeClosed
  {
  }

  /** Dropping a connection brings down one that is still up; one that is closing is left to its end. */
  lemma DestroyedCloses(c: Conn)
    ensures var c' := Next(c, Destroyed);
      if c.state == Connected then c'.state == Disconnected && !c'.writing && !c'.reading else c' == c
  {
  }

  lemma Prepend(c: Conn, e: Event, es: seq<Event>)
    requires Enabled(c, e) && CanRun(Next(c, e), es)
    requires e.Send? && e.data != [] && c.writeClosed && Direct(c) ==> e.result == Fault
    ensures CanRun(c, [e] + es) && After(c, [e] + es) == After(Next(c, e), es)
  {
    hide Enabled, Next, Direct;
    assert ([e] + es)[1..] == es;
  }

  lemma Blocked(c: Conn, data: seq<Byte>)
    requires c.state == Connected && Direct(c) && c.wire == [] == c.accepted && data != [] && !c.writeClosed
    ensures var d := Next(c, Send(data, WouldBlock));
      d.state == Connected && d.writing && d.output == data == d.accepted && d.wire == [] && !d.writeClosed
  {
  }

  lemma Drained(c: Conn, data: seq<Byte>)
    requires c.state == Disconnecting && c.writing && c.output == data == c.accepted && c.wire == [] && data != []
    ensures var d := Next(c, Writable(Wrote(|data|)));
      d.state == Disconnecting && d.writeClosed && d.wire == data == d.accepted && d.output == []
  {
  }

  /** A whole life: a message the kernel does not take at once, a shutdown, and the drain. */
  lemma SendThenShutdown(highWaterMark: nat, data: seq<Byte>) returns (es: seq<Event>)
    requires data != []
    ensures es == [Established, Send(data, WouldBlock), ShutdownCalled, Writable(Wrote(|data|))]
    ensures CanRun(New(highWaterMark), es)
    ensures var c := After(New(highWaterMark), es);
      c.state == Disconnecting && c.writeClosed && c.wire == data == c.accepted && c.output == []
  {
    var c0 := New(highWaterMark);
    var c1 := Next(c0, Established);
    Blocked(c1, data);
    var c2 := Next(c1, Send(data, WouldBlock));
    var c3 := Next(c2, ShutdownCalled);
    assert c3 == c2.(state := Disconnecting);
    Drained(c3, data);
    hide SendInLoop, HandleWrite;
    es := [];
    Prepend(c3, Writable(Wrote(|data|)), es);
    es := [Writable(Wrote(|data|))] + es;
    Prepend(c2, ShutdownCalled, es);
    es := [ShutdownCalled] + es;
    Prepend(c1, Send(data, WouldBlock), es);
    es := [Send(data, WouldBlock)] + es;
    Prepend(c0, Established, es);
    es := [Established] + es;
  }

  /** The callbacks of every step: the high-water mark when the output comes to reach it, the completion
      when the output drains or a message goes out whole and directly, and no others. */
  lemma Notifies(c: Conn, e: Event)
    requires Inv(c) && Enabled(c, e)
    ensures var c' := Next(c, e);
      c'.queued == c.queued
        + (if |c.output| < c.highWaterMark <= |c'.output| then [HighWater(|c'.output|)] else [])
        + (if c.output != [] && c'.output == [] then [WriteComplete] else [])
        + (if e.Send? && c.state != Disconnected && c.output == [] && e.result == Wrote(|e.data|) then [WriteComplete]
           else [])
  {
  }

  // ---------------------------------------------------------------- messages

  function Message(e: Event): seq<Byte> {
    if e.Send? then e.data else []
  }

  function Messages(es: seq<Event>): seq<Byte> {
    if es == [] then [] else Message(es[0]) + Messages(es[1..])
  }

  /** No connection is torn down and no write faults. */
  predicate CalmEvent(e: Event) {
    !e.PeerClosed? && !e.ForceCloseCalled? && !e.Destroyed? && (e.Send? ==> e.result != Fault)
  }

  lemma CalmStep(c: Conn, e: Event)
    requires c.state != Disconnected && Enabled(c, e) && CalmEvent(e)
    ensures Next(c, e).accepted == c.accepted + Message(e) && Next(c, e).state != Disconnected
  {
  }

  /** Then all messages are accepted, whole and in order. */
  lemma {:induction false} CalmRunsAcceptAll(c: Conn, es: seq<Event>)
    requires c.state != Disconnected && CanRun(c, es) && forall i | 0 <= i < |es| :: CalmEvent(es[i])
    ensures After(c, es).accepted == c.accepted + Messages(es)
    decreases |es|
  {
    hide Next, Enabled, CalmEvent, Message, Direct;
    if es != [] {
      CalmStep(c, es[0]);
      CalmRunsAcceptAll(Next(c, es[0]), es[1..]);
      assert c.accepted + (Message(es[0]) + Messages(es[1..])) == c.accepted + Message(es[0]) + Messages(es[1..]);
    }
  }

  /** A message is accepted whole or not at all; not at all exactly when the connection is down or
      a direct write faults. */
  lemma AllOrNothing(c: Conn, data: seq<Byte>, r: WriteResult)
    requires Inv(c) && Written(r) <= |data| && data != []
    ensures var c' := SendInLoop(c, data, r);
      c'.accepted == if c.state == Disconnected || (Direct(c) && r == Fault) then c.accepted else c.accepted + data
  {
  }

  // ---------------------------------------------------------------- the object

  class TcpConnection {
    var state: ConnState
    var outputBuffer: seq<Byte>
    var writing: bool
    var reading: bool
    var writeClosed: bool
    const highWaterMark: nat
    var queued: seq<Callback>
    ghost var wire: seq<Byte>
    ghost var accepted: seq<Byte>

    ghost function View(): Conn
      reads this
    {
      Conn(state, outputBuffer, writing, reading, writeClosed, highWaterMark, wire, accepted, queued)
    }

    constructor (highWaterMark: nat)
      ensures View() == New(highWaterMark) && Inv(View())
    {
      this.highWaterMark := highWaterMark;
      state, outputBuffer, writing, reading, writeClosed, queued := Connecting, [], false, false, false, [];
      wire, accepted := [], [];
    }

    method SendInLoop(data: seq<Byte>, result: WriteResult)
      requires Inv(View()) && Enabled(View(), Send(data, result))
      modifies this
      ensures View() == Next(old(View()), Send(data, result)) && Inv(View())
    {
      hide Inv;
      StepInv(View(), Send(data, result));
      var nwrote, remaining, faultError := 0, |data|, false;
      if state == Disconnected {
        return;
      }
      if !writing && outputBuffer == [] {
        if result.Wrote? {
          nwrote := result.n;
          remaining := |data| - nwrote;
          if remaining == 0 {
            queued := queued + [WriteComplete];
          }
        } else if result == Fault {
          faultError := true;
        }
        wire := wire + data[..nwrote];
      }
      if !faultError {
        accepted := accepted + data;
        assert wire == old(wire) + data[..nwrote];
        if remaining > 0 {
          QueueOutput(data[nwrote..]);
        }
      }
    }

    /** The part of `sendInLoop` that keeps what was not written. */
    method QueueOutput(rest: seq<Byte>)
      requires rest != []
      modifies this`outputBuffer, this`writing, this`queued
      ensures outputBuffer == old(outputBuffer) + rest && writing
      ensures queued == old(queued) + if |old(outputBuffer)| < highWaterMark <= |outputBuffer|
                                      then [HighWater(|outputBuffer|)] else []
    {
      var oldLen, remaining := |outputBuffer|, |rest|;
      if oldLen + remaining >= highWaterMark && oldLen < highWaterMark {
        queued := queued + [HighWater(oldLen + remaining)];
      }
      outputBuffer := outputBuffer + rest;
      if !writing {
        writing := true;
      }
    }

    method HandleWrite(result: WriteResult)
      requires Inv(View()) && Enabled(View(), Writable(result))
      modifies this
      ensures View() == Next(old(View()), Writable(result)) && Inv(View())
    {
      StepInv(View(), Writable(result));
      if writing {
        if result.Wrote? && result.n > 0 {
          wire := wire + outputBuffer[..result.n];
          outputBuffer := outputBuffer[result.n..];
          if outputBuffer == [] {
            writing := false;
            queued := queued + [WriteComplete];
            if state == Disconnecting {
              ShutdownInLoop();
            }
          }
        }
      }
    }

    method ShutdownInLoop()
      modifies this`writeClosed
      ensures writeClosed == (old(writeClosed) || !writing)
    {
      if !writing {
        writeClosed := true;
      }
    }

    method Shutdown()
      requires Inv(View())
      modifies this
      ensures View() == Next(old(View()), ShutdownCalled) && Inv(View())
    {
      StepInv(View(), ShutdownCalled);
      if state == Connected {
        state := Disconnecting;
        if !writing {
          writeClosed := true;
        }
      }
    }

    method HandleClose()
      requires Inv(View()) && (state == Connected || state == Disconnecting)
      modifies this
      ensures View() == Next(old(View()), PeerClosed) && Inv(View())
    {
      StepInv(View(), PeerClosed);
      state := Disconnected;
      writing, reading := false, false;
    }

    method ForceClose()
      requires Inv(View())
      modifies this
      ensures View() == Next(old(View()), ForceCloseCalled) && Inv(View())
    {
      StepInv(View(), ForceCloseCalled);
      if state == Connected || state == Disconnecting {
        state := Disconnecting;
        state := Disconnected;
        writing, reading := false, false;
      }
    }

    method ConnectEstablished()
      requires Inv(View()) && state == Connecting
      modifies this
      ensures View() == Next(old(View()), Established) && Inv(View())
    {
      StepInv(View(), Established);
      state := Connected;
      reading := true;
    }

    method ConnectDestroyed()
      requires Inv(View())
      modifies this
      ensures View() == Next(old(View()), Destroyed) && Inv(View())
    {
      StepInv(View(), Destroyed);
      if state == Connected {
        state := Disconnected;
        writing, reading := false, false;
      }
    }
  }
}
