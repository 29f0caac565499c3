/**
 * The client's own bookkeeping, as a sequence of steps: the queue of
 * commands waiting for an acknowledgement, connecting and bootstrapping,
 * disconnecting, the reconnect backoff, the record of unknown lines, one
 * turn of the listen loop, and the command methods that check their input
 * first.  What the network does (whether a connect, a send or a read
 * succeeds, and the random jitter draws) is passed in; the order in which
 * concurrent tasks interleave is fixed by the order the caller runs the
 * steps.
 */
module Client {
  import opened Wrappers
  import opened Catalog
  import opened Protocol
  import opened State
  import opened Commands
  import Adapter

  const DefaultClientId: string := "py-trinnov-altitude"
  const DefaultReconnectInitialBackoff: real := 1.0
  const DefaultReconnectMaxBackoff: real := 30.0
  const DefaultReconnectJitter: real := 0.2

  /** How many recent unknown lines the client keeps. */
  const UnknownSampleLimit: nat := 20

  /** What the client tells its callbacks. */
  datatype ClientEvent = ConnectedEvent | DisconnectedEvent | ReceivedMessage(message: Message)

  /** The transport the client holds: none, or one that is connected or not. */
  datatype TransportState = NoTransport | Transport(open: bool)

  /** How a pending acknowledgement was settled. */
  datatype AckOutcome = Replied(reply: Message) | FailedNotConnected

  /** The errors a command can end with. */
  datatype CommandError =
    | NotConnectedError
    | SendTimeoutError
    | AckTimeoutError
    | CommandRejectedError(line: string, reason: string)

  /** What the transport does with one line: write it, find the link broken, or time out. */
  datatype SendEnv = Delivered | SendBroken | SendTimedOut

  /** What a send step did: failed, sent with nothing to wait for, or sent with a waiter queued. */
  datatype SendResult = SendError(error: CommandError) | SentNoAck | AwaitingAck(waiter: nat)

  /** How opening a connection ends. */
  datatype ConnectResult = ConnectOk | ConnectFailed | ConnectTimedOut

  /**
   * What the network does in one connect-and-bootstrap: how the connect
   * ends, how many bootstrap lines are written before a send fails, and
   * the random draw used if this attempt has to be retried.
   */
  datatype Attempt = Attempt(connect: ConnectResult, delivered: nat, draw: real)

  /** How a connect-and-bootstrap ends; `AlreadyListening` is `start` finding its listen task running. */
  datatype BootstrapResult =
    | AlreadyConnected
    | AlreadyListening
    | Bootstrapped
    | ConnectError(result: ConnectResult)
    | BootstrapSendError(sent: nat)

  datatype ReconnectResult = Reconnected | GaveUp | ReconnectRaised(error: BootstrapResult)

  /** What one read from the transport gives. */
  datatype ReadResult = LineRead(line: string) | ReadTimedOut | ReadLost

  datatype ListenResult = Stopped | Listening | ConnectionLost

  /** The errors of the command methods that check their argument first. */
  /** What an adapter callback hears: the snapshot, the deltas and the events of one update. */
  datatype AdapterDelivery = AdapterDelivery(snapshot: Adapter.Snapshot, deltas: seq<Adapter.Delta>, events: seq<Adapter.AdapterEvent>)

  /** The event put in front of the events of the first delivery. */
  const InitialAdapterEvent: Adapter.AdapterEvent := Adapter.AdapterEvent("initial", map[])

  datatype ClientError = CommandFailed(error: CommandError) | InvalidArgument(message: string) | NoMacAddress

  /** No waiter is queued twice. */
  predicate Distinct(q: seq<nat>) {
    forall i, j | 0 <= i < j < |q| :: q[i] != q[j]
  }

  /** The queue without the first occurrence of `w`, as `deque.remove` leaves it. */
  function Remove(q: seq<nat>, w: nat): seq<nat> {
    if q == [] then [] else if q[0] == w then q[1..] else [q[0]] + Remove(q[1..], w)
  }

  /** Removing a waiter from a queue without repeats takes out that waiter and nothing else. */
  lemma {:induction false} RemoveSpec(q: seq<nat>, w: nat)
    requires Distinct(q)
    ensures var r := Remove(q, w);
      Distinct(r) && (forall x :: x in r <==> x in q && x != w)
      && |r| == (if w in q then |q| - 1 else |q|)
  {
    if q != [] {
      assert forall i | 0 <= i < |q| - 1 :: q[1..][i] == q[i + 1];
      RemoveSpec(q[1..], w);
      if q[0] != w {
        var r := [q[0]] + Remove(q[1..], w);
        assert q[0] !in q[1..] by {
          forall i | 0 <= i < |q[1..]| ensures q[1..][i] != q[0] {
            assert q[1..][i] == q[i + 1];
          }
        }
        forall i, j | 0 <= i < j < |r| ensures r[i] != r[j] {
          if i == 0 {
            assert r[j] in Remove(q[1..], w);
          } else {
            assert r[i] == Remove(q[1..], w)[i - 1] && r[j] == Remove(q[1..], w)[j - 1];
          }
        }
        assert forall x :: x in r <==> x == q[0] || x in Remove(q[1..], w);
        assert forall x :: x in q <==> x == q[0] || x in q[1..];
      } else {
        assert q[0] !in q[1..] by {
          forall i | 0 <= i < |q[1..]| ensures q[1..][i] != q[0] {
            assert q[1..][i] == q[i + 1];
          }
        }
        assert forall x :: x in q <==> x == q[0] || x in q[1..];
      }
    }
  }

  /**
   * The waiter bookkeeping is consistent: no waiter is queued twice, every
   * waiter was handed out before `next`, and a queued waiter is unsettled.
   */
  predicate WaitersOk(q: seq<nat>, settled: map<nat, AckOutcome>, next: nat) {
    Distinct(q)
    && (forall w | w in q :: w < next && w !in settled)
    && (forall w | w in settled :: w < next)
  }

  /** Queueing a fresh waiter keeps the bookkeeping consistent. */
  lemma PushWaiter(q: seq<nat>, settled: map<nat, AckOutcome>, next: nat)
    requires WaitersOk(q, settled, next)
    ensures next !in q && WaitersOk(q + [next], settled, next + 1)
  {
    var r := q + [next];
    forall i, j | 0 <= i < j < |r| ensures r[i] != r[j] {
      if j == |q| {
        assert r[i] == q[i] && q[i] in q;
      } else {
        assert r[i] == q[i] && r[j] == q[j];
      }
    }
  }

  /** Settling the oldest waiter keeps the bookkeeping consistent. */
  lemma PopWaiter(q: seq<nat>, settled: map<nat, AckOutcome>, next: nat, o: AckOutcome)
    requires WaitersOk(q, settled, next) && q != []
    ensures WaitersOk(q[1..], settled[q[0] := o], next)
  {
    var t := q[1..];
    var s := settled[q[0] := o];
    assert q[0] in q;
    forall x | x in t ensures x < next && x !in s {
      var i :| 0 <= i < |t| && t[i] == x;
      assert q[i + 1] == x && q[i + 1] in q;
    }
    forall i, j | 0 <= i < j < |t| ensures t[i] != t[j] {
      assert t[i] == q[i + 1] && t[j] == q[j + 1];
    }
    forall w | w in s ensures w < next {
      if w != q[0] {
        assert w in settled;
      }
    }
  }

  /** Taking a waiter out of the queue keeps the bookkeeping consistent. */
  lemma RemoveWaiter(q: seq<nat>, settled: map<nat, AckOutcome>, next: nat, w: nat)
    requires WaitersOk(q, settled, next)
    ensures WaitersOk(Remove(q, w), settled, next) && w !in Remove(q, w)
  {
    RemoveSpec(q, w);
  }

  /** Every waiter in `ws` failed with "not connected". */
  function FailAll(ws: seq<nat>): (m: map<nat, AckOutcome>)
    ensures forall w :: w in m <==> w in ws
    ensures forall w | w in m :: m[w] == FailedNotConnected
  {
    map w | w in ws :: FailedNotConnected
  }

  /** Failing one more waiter extends the failures by that waiter. */
  lemma FailOneMore(settled: map<nat, AckOutcome>, ws: seq<nat>, w: nat)
    ensures (settled + FailAll(ws))[w := FailedNotConnected] == settled + FailAll(ws + [w])
  {
    var a := (settled + FailAll(ws))[w := FailedNotConnected];
    var b := settled + FailAll(ws + [w]);
    assert forall x :: x in ws + [w] <==> x in ws || x == w;
    assert a.Keys == b.Keys;
    forall x | x in a ensures a[x] == b[x] {
    }
  }

  // ---- Unknown lines ----

  /** The last `n` elements of `s`, or all of it when it is shorter. */
  function LastN(s: seq<string>, n: nat): (r: seq<string>)
    ensures |r| == (if |s| < n then |s| else n)
  {
    if |s| <= n then s else s[|s| - n..]
  }

  /**
   * Keeping only the last `n` after every append keeps the same lines as
   * taking the last `n` of the whole history: a bounded queue is a window
   * onto the history.
   */
  lemma LastNSnoc(h: seq<string>, x: string, n: nat)
    requires n > 0
    ensures LastN(LastN(h, n) + [x], n) == LastN(h + [x], n)
  {
    if |h| > n {
      assert (h + [x])[|h| + 1 - n..] == h[|h| + 1 - n..] + [x];
      assert (h[|h| - n..] + [x])[1..] == h[|h| - n + 1..] + [x];
    }
  }

  /** Whether the `count`-th unknown line is logged: the first five, then every hundredth. */
  predicate LogsUnknown(count: nat) {
    count <= 5 || count % 100 == 0
  }

  /** How many of the first `n` unknown lines are logged. */
  function LoggedUpTo(n: nat): nat {
    if n == 0 then 0 else LoggedUpTo(n - 1) + (if LogsUnknown(n) then 1 else 0)
  }

  /** After `n` unknown lines, the first five and one in every hundred have been logged. */
  lemma {:induction false} LoggedUpToCount(n: nat)
    ensures LoggedUpTo(n) == (if n < 5 then n else 5) + n / 100
  {
    if n > 0 {
      LoggedUpToCount(n - 1);
      assert n / 100 == (n - 1) / 100 + (if n % 100 == 0 then 1 else 0);
    }
  }

  // ---- Reconnect backoff ----

  function Min(a: real, b: real): real {
    if a <= b then a else b
  }

  function Max(a: real, b: real): real {
    if a >= b then a else b
  }

  /** The backoff delay before the `k`-th failed attempt is capped. */
  function Delay(initial: real, maximum: real, k: nat): real
    decreases k, 0
  {
    if k == 0 then Max(0.0, initial)
    else Min(Max(2.0 * Capped(initial, maximum, k - 1), initial), maximum)
  }

  /** The delay after the `k`-th failed attempt, capped at the maximum. */
  function Capped(initial: real, maximum: real, k: nat): real
    decreases k, 1
  {
    Min(Delay(initial, maximum, k), maximum)
  }

  /** The sleep after the `k`-th failed attempt: the capped delay plus its jitter share. */
  function SleepFor(initial: real, maximum: real, jitter: real, k: nat, draw: real): real {
    Capped(initial, maximum, k) + Capped(initial, maximum, k) * jitter * draw
  }

  function Pow2(k: nat): (r: real)
    ensures r >= 1.0
  {
    if k == 0 then 1.0 else 2.0 * Pow2(k - 1)
  }

  /**
   * With a sensible configuration (0 <= initial <= maximum) the delay
   * doubles from `initial` until it reaches `maximum`.
   */
  lemma {:induction false} DelayClosedForm(initial: real, maximum: real, k: nat)
    requires 0.0 <= initial <= maximum
    ensures Delay(initial, maximum, k) == Min(initial * Pow2(k), maximum)
  {
    if k > 0 {
      DelayClosedForm(initial, maximum, k - 1);
      var p := initial * Pow2(k - 1);
      assert initial * Pow2(k) == 2.0 * p;
      AtLeastSelf(initial, Pow2(k - 1));
      assert Capped(initial, maximum, k - 1) == Min(p, maximum);
      assert Delay(initial, maximum, k) == Min(Max(2.0 * Min(p, maximum), initial), maximum);
    }
  }

  /**
   * Whatever `initial` is, a non-negative `maximum` keeps every capped
   * delay within 0..maximum, and the capped delays never shrink.
   */
  lemma {:induction false} CappedBounds(initial: real, maximum: real, k: nat)
    requires 0.0 <= maximum
    ensures 0.0 <= Capped(initial, maximum, k) <= maximum
    ensures Capped(initial, maximum, k) <= Capped(initial, maximum, k + 1)
  {
    if k > 0 {
      CappedBounds(initial, maximum, k - 1);
    }
    var c := Capped(initial, maximum, k);
    assert Delay(initial, maximum, k + 1) == Min(Max(2.0 * c, initial), maximum);
  }

  /** A draw in [0, 1) and a non-negative jitter make the sleep at least the delay and below delay * (1 + jitter). */
  lemma SleepBounds(initial: real, maximum: real, jitter: real, k: nat, draw: real)
    requires 0.0 <= maximum && 0.0 <= jitter && 0.0 <= draw < 1.0
    ensures Capped(initial, maximum, k) <= SleepFor(initial, maximum, jitter, k, draw)
    ensures SleepFor(initial, maximum, jitter, k, draw) <= Capped(initial, maximum, k) * (1.0 + jitter)
  {
    var c := Capped(initial, maximum, k);
    CappedBounds(initial, maximum, k);
    JitterBounds(c, jitter, draw);
    assert SleepFor(initial, maximum, jitter, k, draw) == c + c * jitter * draw;
    assert c + c * jitter == c * (1.0 + jitter);
    assert SleepFor(initial, maximum, jitter, k, draw) <= c * (1.0 + jitter);
    assert c == Capped(initial, maximum, k);
  }

  lemma JitterBounds(c: real, jitter: real, draw: real)
    requires 0.0 <= c && 0.0 <= jitter && 0.0 <= draw < 1.0
    ensures c <= c + c * jitter * draw <= c + c * jitter
  {
    NonNegProduct(c, jitter);
    FractionOf(c * jitter, draw);
  }

  lemma AtLeastSelf(a: real, f: real)
    requires 0.0 <= a && 1.0 <= f
    ensures a <= a * f
  {
    assert a * f - a == a * (f - 1.0);
    NonNegProduct(a, f - 1.0);
  }

  lemma NonNegProduct(a: real, b: real)
    requires 0.0 <= a && 0.0 <= b
    ensures 0.0 <= a * b
  {
  }

  lemma FractionOf(a: real, d: real)
    requires 0.0 <= a && 0.0 <= d < 1.0
    ensures 0.0 <= a * d <= a
  {
    assert a - a * d == a * (1.0 - d);
    NonNegProduct(a, 1.0 - d);
    NonNegProduct(a, d);
  }

  /** With backoff 0.1 up to 0.4 and no jitter, the sleeps are 0.1, 0.2, 0.4, 0.4. */
  lemma BackoffExample(draw: real)
    ensures SleepFor(0.1, 0.4, 0.0, 0, draw) == 0.1
    ensures SleepFor(0.1, 0.4, 0.0, 1, draw) == 0.2
    ensures SleepFor(0.1, 0.4, 0.0, 2, draw) == 0.4
    ensures SleepFor(0.1, 0.4, 0.0, 3, draw) == 0.4
  {
    assert Capped(0.1, 0.4, 0) == 0.1;
    assert Capped(0.1, 0.4, 1) == 0.2;
    assert Capped(0.1, 0.4, 2) == 0.4;
  }

  // ---- Connecting ----

  /** The lines the client sends after connecting, in order. */
  function BootstrapLines(clientId: string): seq<string> {
    ["id " + clientId, "send volume", "get_current_state"]
  }

  /** The state right after a connect: nothing known but bypass, dim and mute, which are off. */
  const ConnectedView: StateView :=
    Initial.(device := NoDevice.(bypass := Some(false), dim := Some(false), mute := Some(false)))

  class TrinnovAltitudeClient {
    const clientId: string
    const mac: Option<string>
    const autoReconnect: bool
    const reconnectInitialBackoff: real
    const reconnectMaxBackoff: real
    const reconnectJitter: real
    const state: AltitudeState

    var transport: TransportState
    var stopping: bool
    /** Whether the listen task exists and has not finished. */
    var listening: bool
    /** The latch `wait_synced` waits on. */
    var syncEvent: bool
    /** The waiters for an acknowledgement, oldest first. */
    var ackWaiters: seq<nat>
    var nextWaiter: nat
    /** How each settled waiter was settled. */
    var outcomes: map<nat, AckOutcome>
    /** The lines written to the transport. */
    var sent: seq<string>
    /** The events handed to the callbacks. */
    var emitted: seq<ClientEvent>
    /** The MAC addresses a wake-on-LAN packet was sent to. */
    var woken: seq<string>
    var unknownCount: nat
    var unknownSamples: seq<string>
    /** Every unknown line seen. */
    ghost var unknownHistory: seq<string>

    /** Whether the client holds a transport that is connected. */
    predicate Connected()
      reads this
    {
      transport.Transport? && transport.open
    }

    ghost predicate Valid()
      reads this, state
    {
      WaitersOk(ackWaiters, outcomes, nextWaiter)
      && (syncEvent ==> IsSynced(state.View()))
      && unknownCount == |unknownHistory|
      && unknownSamples == LastN(unknownHistory, UnknownSampleLimit)
    }

    constructor (clientId: string, mac: Option<string>, autoReconnect: bool,
                 initial: real, maximum: real, jitter: real)
      requires mac.Some? ==> ValidateMac(mac.value).Pass?
      ensures Valid() && fresh(state) && state.View() == Initial
      ensures this.clientId == clientId && this.mac == mac && this.autoReconnect == autoReconnect
      ensures reconnectInitialBackoff == initial && reconnectMaxBackoff == maximum && reconnectJitter == jitter
      ensures transport == NoTransport && !stopping && !listening && !syncEvent
      ensures ackWaiters == [] && outcomes == map[] && sent == [] && emitted == [] && woken == []
      ensures unknownCount == 0 && unknownSamples == []
    {
      this.clientId := clientId;
      this.mac := mac;
      this.autoReconnect := autoReconnect;
      reconnectInitialBackoff := initial;
      reconnectMaxBackoff := maximum;
      reconnectJitter := jitter;
      state := new AltitudeState();
      transport := NoTransport;
      stopping, listening, syncEvent := false, false, false;
      ackWaiters, nextWaiter, outcomes := [], 0, map[];
      sent, emitted, woken := [], [], [];
      unknownCount, unknownSamples, unknownHistory := 0, [], [];
    }

    /** Whether wake-on-LAN is possible: a MAC address was given. */
    predicate PowerOnAvailable()
      reads this
    {
      mac.Some?
    }

    /** Wake-on-LAN needs the MAC address; with one, the packet goes to it. */
    method PowerOn() returns (r: Outcome<ClientError>)
      modifies this`woken
      ensures PowerOnAvailable() <==> r.Pass?
      ensures r.Fail? ==> r.error == NoMacAddress && woken == old(woken)
      ensures r.Pass? ==> woken == old(woken) + [mac.value]
    {
      if mac.None? {
        return Fail(NoMacAddress);
      }
      woken := woken + [mac.value];
      r := Pass;
    }

    // ---- Acknowledgements ----

    /**
     * An `OK` or `ERROR` reply settles the oldest waiter, if there is one;
     * any other message, or a reply with nobody waiting, changes nothing.
     */
    method ResolveAckWaiter(m: Message)
      requires Valid()
      modifies this`ackWaiters, this`outcomes
      ensures Valid()
      ensures (m.OK? || m.Error?) && old(ackWaiters) != [] ==>
        ackWaiters == old(ackWaiters)[1..] && outcomes == old(outcomes)[old(ackWaiters)[0] := Replied(m)]
      ensures !(m.OK? || m.Error?) || old(ackWaiters) == [] ==>
        ackWaiters == old(ackWaiters) && outcomes == old(outcomes)
    {
      if !(m.OK? || m.Error?) || ackWaiters == [] {
        return;
      }
      var w := ackWaiters[0];
      PopWaiter(ackWaiters, outcomes, nextWaiter, Replied(m));
      ackWaiters := ackWaiters[1..];
      outcomes := outcomes[w := Replied(m)];
    }

    /**
     * The first half of `_command`: with no transport the command fails at
     * once; otherwise a waiter is queued before the send when an
     * acknowledgement is wanted, and taken out again when the send fails.
     */
    method SendCommand(line: string, waitForAck: bool, env: SendEnv) returns (r: SendResult)
      requires Valid()
      modifies this`sent, this`ackWaiters, this`nextWaiter
      ensures Valid()
      ensures transport == NoTransport ==> r == SendError(NotConnectedError) && sent == old(sent)
      ensures transport.Transport? && !transport.open ==> r == SendError(NotConnectedError) && sent == old(sent)
      ensures transport.Transport? && transport.open && env == SendBroken ==>
        r == SendError(NotConnectedError) && sent == old(sent)
      ensures transport.Transport? && transport.open && env == SendTimedOut ==>
        r == SendError(SendTimeoutError) && sent == old(sent)
      ensures transport.Transport? && transport.open && env == Delivered ==>
        sent == old(sent) + [line]
        && (!waitForAck ==> r == SentNoAck && ackWaiters == old(ackWaiters))
        && (waitForAck ==> r == AwaitingAck(old(nextWaiter)) && ackWaiters == old(ackWaiters) + [old(nextWaiter)])
      ensures r.SendError? ==> ackWaiters == old(ackWaiters)
    {
      if transport == NoTransport {
        return SendError(NotConnectedError);
      }
      var waiter := nextWaiter;
      if waitForAck {
        PushWaiter(ackWaiters, outcomes, nextWaiter);
        ackWaiters := ackWaiters + [waiter];
        nextWaiter := nextWaiter + 1;
      }
      if !transport.open || env != Delivered {
        if waitForAck {
          RemoveWaiter(ackWaiters, outcomes, nextWaiter, waiter);
          RemoveLast(old(ackWaiters), waiter);
          ackWaiters := Remove(ackWaiters, waiter);
        }
        return SendError(if !transport.open || env == SendBroken then NotConnectedError else SendTimeoutError);
      }
      sent := sent + [line];
      if waitForAck {
        return AwaitingAck(waiter);
      }
      return SentNoAck;
    }

    /**
     * The second half of `_command`: the waiter's settlement decides the
     * outcome; a waiter still unsettled has timed out and leaves the queue.
     * An `ERROR` reply becomes a rejection carrying the line and the reason.
     */
    method AwaitAck(line: string, w: nat) returns (r: Result<Message, CommandError>)
      requires Valid()
      modifies this`ackWaiters
      ensures Valid()
      ensures w in outcomes && outcomes[w] == FailedNotConnected ==> r == Failure(NotConnectedError)
      ensures w in outcomes && outcomes[w].Replied? && outcomes[w].reply.Error? ==>
        r == Failure(CommandRejectedError(line, outcomes[w].reply.error))
      ensures w in outcomes && outcomes[w].Replied? && !outcomes[w].reply.Error? ==> r == Success(outcomes[w].reply)
      ensures w in outcomes ==> ackWaiters == old(ackWaiters)
      ensures w !in outcomes ==> r == Failure(AckTimeoutError) && ackWaiters == Remove(old(ackWaiters), w)
      ensures w !in ackWaiters
    {
      if w in outcomes {
        match outcomes[w]
        case FailedNotConnected =>
          return Failure(NotConnectedError);
        case Replied(m) =>
          if m.Error? {
            return Failure(CommandRejectedError(line, m.error));
          }
          return Success(m);
      }
      RemoveWaiter(ackWaiters, outcomes, nextWaiter, w);
      ackWaiters := Remove(ackWaiters, w);
      return Failure(AckTimeoutError);
    }

    // ---- Connection lifecycle ----

    /**
     * Drop the transport, clear the latch, reset the state and fail every
     * waiter with "not connected"; close and announce the disconnect only
     * when there was a transport.
     */
    method Disconnect()
      requires Valid()
      modifies this`transport, this`syncEvent, this`ackWaiters, this`outcomes, this`emitted, state
      ensures Valid()
      ensures transport == NoTransport && !syncEvent && state.View() == Initial
      ensures ackWaiters == [] && outcomes == old(outcomes) + FailAll(old(ackWaiters))
      ensures emitted == old(emitted) + (if old(transport).Transport? then [DisconnectedEvent] else [])
    {
      var had := transport.Transport?;
      transport := NoTransport;
      syncEvent := false;
      state.ResetRuntimeValues();
      FailWaiters();
      if had {
        emitted := emitted + [DisconnectedEvent];
      }
    }

    /** Pop every waiter, oldest first, and fail it. */
    method FailWaiters()
      requires Valid()
      modifies this`ackWaiters, this`outcomes
      ensures Valid()
      ensures ackWaiters == [] && outcomes == old(outcomes) + FailAll(old(ackWaiters))
    {
      ghost var all := ackWaiters;
      ghost var k := 0;
      while ackWaiters != []
        invariant Valid()
        invariant 0 <= k <= |all| && ackWaiters == all[k..]
        invariant outcomes == old(outcomes) + FailAll(all[..k])
        decreases |ackWaiters|
      {
        var w := ackWaiters[0];
        PopWaiter(ackWaiters, outcomes, nextWaiter, FailedNotConnected);
        FailOneMore(old(outcomes), all[..k], w);
        assert all[..k + 1] == all[..k] + [w];
        ackWaiters := ackWaiters[1..];
        outcomes := outcomes[w := FailedNotConnected];
        k := k + 1;
      }
      assert all[..k] == all;
    }

    /**
     * Connect and bootstrap, unless already connected: clear the latch,
     * reset the state, open a new transport, switch bypass, dim and mute
     * off, announce the connection and send the bootstrap lines in order.
     * A failed connect leaves the new, unconnected transport in place.
     */
    method ConnectAndBootstrap(attempt: Attempt) returns (r: BootstrapResult)
      requires Valid()
      modifies this`transport, this`syncEvent, this`sent, this`emitted, state
      ensures Valid()
      ensures old(Connected()) ==> (r == AlreadyConnected && transport == old(transport)
        && syncEvent == old(syncEvent) && sent == old(sent) && emitted == old(emitted)
        && state.View() == old(state.View()))
      ensures !old(Connected()) ==> (!syncEvent && transport == Transport(attempt.connect == ConnectOk))
      ensures !old(Connected()) && attempt.connect != ConnectOk ==> (r == ConnectError(attempt.connect)
        && state.View() == Initial && sent == old(sent) && emitted == old(emitted))
      ensures !old(Connected()) && attempt.connect == ConnectOk ==> (state.View() == ConnectedView
        && emitted == old(emitted) + [ConnectedEvent]
        && (attempt.delivered >= 3 ==> r == Bootstrapped && sent == old(sent) + BootstrapLines(clientId))
        && (attempt.delivered < 3 ==> r == BootstrapSendError(attempt.delivered)
                                      && sent == old(sent) + BootstrapLines(clientId)[..attempt.delivered]))
    {
      if Connected() {
        return AlreadyConnected;
      }
      syncEvent := false;
      state.ResetRuntimeValues();
      transport := Transport(false);
      if attempt.connect != ConnectOk {
        return ConnectError(attempt.connect);
      }
      transport := Transport(true);
      SwitchOffOutputs();
      emitted := emitted + [ConnectedEvent];
      r := SendBootstrap(attempt.delivered);
    }

    /** A fresh connection starts with bypass, dim and mute off. */
    method SwitchOffOutputs()
      modifies state`bypass, state`dim, state`mute
      ensures state.View() == old(state.View()).(device := old(state.View()).device.(
        bypass := Some(false), dim := Some(false), mute := Some(false)))
    {
      state.bypass := Some(false);
      state.dim := Some(false);
      state.mute := Some(false);
    }

    /** Send the bootstrap lines in order until the transport accepts no more. */
    method SendBootstrap(delivered: nat) returns (r: BootstrapResult)
      modifies this`sent
      ensures delivered >= 3 ==> r == Bootstrapped && sent == old(sent) + BootstrapLines(clientId)
      ensures delivered < 3 ==> r == BootstrapSendError(delivered)
                                && sent == old(sent) + BootstrapLines(clientId)[..delivered]
    {
      if delivered < 3 {
        sent := sent + BootstrapLines(clientId)[..delivered];
        return BootstrapSendError(delivered);
      }
      sent := sent + BootstrapLines(clientId);
      return Bootstrapped;
    }

    /**
     * Retry connect-and-bootstrap while the client is not stopping and
     * reconnecting is on.  Only a failed or timed-out connect is retried,
     * after sleeping the backoff; a failing bootstrap send is raised.
     * The attempts the network offers run out only when the client is
     * told to stop.
     */
    method AttemptReconnectUntilSuccess(attempts: seq<Attempt>) returns (r: ReconnectResult, sleeps: seq<real>)
      requires Valid()
      modifies this`stopping, this`transport, this`syncEvent, this`sent, this`emitted, state
      ensures Valid()
      ensures old(stopping) || !autoReconnect ==> (r == GaveUp && sleeps == [] && stopping == old(stopping)
        && transport == old(transport) && sent == old(sent) && emitted == old(emitted))
      ensures |sleeps| <= |attempts|
      ensures forall k | 0 <= k < |sleeps| ::
        attempts[k].connect != ConnectOk
        && sleeps[k] == SleepFor(reconnectInitialBackoff, reconnectMaxBackoff, reconnectJitter, k, attempts[k].draw)
      ensures r == Reconnected ==> Connected() && (old(Connected()) ==> sleeps == [] && sent == old(sent))
      ensures r == Reconnected && !old(Connected()) ==> (|sleeps| < |attempts|
        && attempts[|sleeps|].connect == ConnectOk && attempts[|sleeps|].delivered >= 3
        && state.View() == ConnectedView && sent == old(sent) + BootstrapLines(clientId))
      ensures r == GaveUp && !old(stopping) && autoReconnect ==> stopping && |sleeps| == |attempts|
      ensures r.ReconnectRaised? ==> (|sleeps| < |attempts| && attempts[|sleeps|].connect == ConnectOk
        && r.error == BootstrapSendError(attempts[|sleeps|].delivered))
    {
      sleeps := [];
      if stopping || !autoReconnect {
        return GaveUp, sleeps;
      }
      var delay := Max(0.0, reconnectInitialBackoff);
      var k := 0;
      while !stopping
        invariant Valid() && 0 <= k <= |attempts| && |sleeps| == k
        invariant delay == Delay(reconnectInitialBackoff, reconnectMaxBackoff, k)
        invariant forall j | 0 <= j < k ::
          attempts[j].connect != ConnectOk
          && sleeps[j] == SleepFor(reconnectInitialBackoff, reconnectMaxBackoff, reconnectJitter, j, attempts[j].draw)
        invariant sent == old(sent) && emitted == old(emitted)
        invariant k > 0 ==> !Connected() && !old(Connected())
        invariant k == 0 ==> transport == old(transport)
        invariant stopping ==> k == |attempts|
        decreases |attempts| - k
      {
        if k == |attempts| {
          stopping := true;
          break;
        }
        var b := ConnectAndBootstrap(attempts[k]);
        if b == Bootstrapped || b == AlreadyConnected {
          return Reconnected, sleeps;
        }
        if b.BootstrapSendError? {
          return ReconnectRaised(b), sleeps;
        }
        var sleep;
        sleep, delay := Backoff(k, delay, attempts[k].draw);
        sleeps := sleeps + [sleep];
        k := k + 1;
      }
      return GaveUp, sleeps;
    }

    /** The sleep after the `k`-th failed attempt, and the delay for the next one. */
    method Backoff(k: nat, delay: real, draw: real) returns (sleep: real, next: real)
      requires delay == Delay(reconnectInitialBackoff, reconnectMaxBackoff, k)
      ensures sleep == SleepFor(reconnectInitialBackoff, reconnectMaxBackoff, reconnectJitter, k, draw)
      ensures next == Delay(reconnectInitialBackoff, reconnectMaxBackoff, k + 1)
    {
      var capped := Min(delay, reconnectMaxBackoff);
      var jitterAmount := capped * reconnectJitter * draw;
      sleep := capped + jitterAmount;
      next := Min(Max(capped * 2.0, reconnectInitialBackoff), reconnectMaxBackoff);
    }

    /** Start listening: nothing to do while the listen task runs; otherwise connect first. */
    method Start(attempt: Attempt) returns (r: BootstrapResult)
      requires Valid()
      modifies this`stopping, this`listening, this`transport, this`syncEvent, this`sent, this`emitted, state
      ensures Valid()
      ensures old(listening) ==> (r == AlreadyListening && listening && stopping == old(stopping)
        && transport == old(transport) && sent == old(sent) && emitted == old(emitted))
      ensures !old(listening) ==> !stopping && (listening <==> r == AlreadyConnected || r == Bootstrapped)
      ensures !old(listening) && old(Connected()) ==> (r == AlreadyConnected && transport == old(transport)
        && syncEvent == old(syncEvent) && sent == old(sent) && emitted == old(emitted)
        && state.View() == old(state.View()))
      ensures !old(listening) && !old(Connected()) ==> (!syncEvent && transport == Transport(attempt.connect == ConnectOk))
      ensures !old(listening) && !old(Connected()) && attempt.connect != ConnectOk ==> (r == ConnectError(attempt.connect)
        && state.View() == Initial && sent == old(sent) && emitted == old(emitted))
      ensures !old(listening) && !old(Connected()) && attempt.connect == ConnectOk ==> (state.View() == ConnectedView
        && emitted == old(emitted) + [ConnectedEvent]
        && (attempt.delivered >= 3 ==> r == Bootstrapped && sent == old(sent) + BootstrapLines(clientId))
        && (attempt.delivered < 3 ==> r == BootstrapSendError(attempt.delivered)
                                      && sent == old(sent) + BootstrapLines(clientId)[..attempt.delivered]))
    {
      if listening {
        return AlreadyListening;
      }
      stopping := false;
      r := ConnectAndBootstrap(attempt);
      if r == AlreadyConnected || r == Bootstrapped {
        listening := true;
      }
    }

    /** Stop: mark the client stopping, end the listen task, and disconnect. */
    method Stop()
      requires Valid()
      modifies this`stopping, this`listening, this`transport, this`syncEvent, this`ackWaiters, this`outcomes,
               this`emitted, state
      ensures Valid()
      ensures stopping && !listening && transport == NoTransport && !syncEvent && state.View() == Initial
      ensures ackWaiters == [] && outcomes == old(outcomes) + FailAll(old(ackWaiters))
      ensures emitted == old(emitted) + (if old(transport).Transport? then [DisconnectedEvent] else [])
    {
      stopping := true;
      listening := false;
      Disconnect();
    }

    // ---- Listening ----

    /** Count an unknown line and keep it among the recent ones; say whether it is logged. */
    method RecordUnknownMessage(line: string) returns (logged: bool)
      requires Valid()
      modifies this`unknownCount, this`unknownSamples, this`unknownHistory
      ensures Valid()
      ensures unknownCount == old(unknownCount) + 1 && unknownHistory == old(unknownHistory) + [line]
      ensures unknownSamples == LastN(old(unknownSamples) + [line], UnknownSampleLimit)
      ensures logged == LogsUnknown(unknownCount)
    {
      unknownCount := unknownCount + 1;
      LastNSnoc(unknownHistory, line, UnknownSampleLimit);
      unknownHistory := unknownHistory + [line];
      unknownSamples := LastN(unknownSamples + [line], UnknownSampleLimit);
      logged := unknownCount <= 5 || unknownCount % 100 == 0;
    }

    /**
     * One turn of the listen loop.  A read timeout changes nothing; a lost
     * link, no transport at all, or a transport that never connected (it has
     * no reader) reports the loss, after which the caller disconnects and
     * reconnects.  A line read is parsed and processed.
     */
    method ListenStep(read: ReadResult) returns (r: ListenResult, received: Option<Message>)
      requires Valid()
      modifies this`unknownCount, this`unknownSamples, this`unknownHistory, this`ackWaiters, this`outcomes,
               this`emitted, this`syncEvent, state
      ensures Valid()
      ensures stopping ==> r == Stopped
      ensures !stopping && (!(transport.Transport? && transport.open) || read == ReadLost) ==> r == ConnectionLost
      ensures !stopping && transport.Transport? && transport.open && read == ReadTimedOut ==> r == Listening
      ensures stopping || !(transport.Transport? && transport.open) || !read.LineRead? ==> received.None? && unchanged(this, state)
      ensures !stopping && transport.Transport? && transport.open && read.LineRead? ==>
        (r == Listening && received == Some(ParseMessage(read.line)))
      ensures received.Some? ==> state.View() == ApplyMessage(old(state.View()), received.value)
      ensures received.Some? ==> emitted == old(emitted) + [ReceivedMessage(received.value)]
      ensures received.Some? ==> (syncEvent <==> old(syncEvent) || IsSynced(state.View()))
      ensures received.Some? ==>
        unknownHistory == old(unknownHistory) + (if received.value.Unknown? then [received.value.rawMessage] else [])
      ensures received.Some? && (received.value.OK? || received.value.Error?) && old(ackWaiters) != [] ==>
        ackWaiters == old(ackWaiters)[1..] && outcomes == old(outcomes)[old(ackWaiters)[0] := Replied(received.value)]
      ensures received.Some? && !((received.value.OK? || received.value.Error?) && old(ackWaiters) != []) ==>
        ackWaiters == old(ackWaiters) && outcomes == old(outcomes)
    {
      received := None;
      if stopping {
        return Stopped, received;
      }
      if !(transport.Transport? && transport.open) || read == ReadLost {
        return ConnectionLost, received;
      }
      if read == ReadTimedOut {
        return Listening, received;
      }
      var m := ParseMessage(read.line);
      ProcessMessage(m);
      r, received := Listening, Some(m);
    }

    /**
     * A message read from the processor: record it when unknown, reduce it
     * into the state, offer it to the oldest waiter, announce it, and set
     * the latch once the state is synchronised.
     */
    method ProcessMessage(m: Message)
      requires Valid()
      modifies this`unknownCount, this`unknownSamples, this`unknownHistory, this`ackWaiters, this`outcomes,
               this`emitted, this`syncEvent, state
      ensures Valid()
      ensures state.View() == ApplyMessage(old(state.View()), m)
      ensures emitted == old(emitted) + [ReceivedMessage(m)]
      ensures syncEvent <==> old(syncEvent) || IsSynced(state.View())
      ensures unknownHistory == old(unknownHistory) + (if m.Unknown? then [m.rawMessage] else [])
      ensures (m.OK? || m.Error?) && old(ackWaiters) != [] ==>
        ackWaiters == old(ackWaiters)[1..] && outcomes == old(outcomes)[old(ackWaiters)[0] := Replied(m)]
      ensures !((m.OK? || m.Error?) && old(ackWaiters) != []) ==>
        ackWaiters == old(ackWaiters) && outcomes == old(outcomes)
    {
      if m.Unknown? {
        var _ := RecordUnknownMessage(m.rawMessage);
      }
      ApplyToState(m);
      ResolveAckWaiter(m);
      emitted := emitted + [ReceivedMessage(m)];
      UpdateSyncLatch();
    }

    /** Reduce a message into the state; a set latch stays justified, as synchronisation is never lost. */
    method ApplyToState(m: Message)
      requires Valid()
      modifies state
      ensures Valid() && state.View() == ApplyMessage(old(state.View()), m)
    {
      ghost var before := state.View();
      state.Apply(m);
      if syncEvent {
        ApplySynced(before, m);
      }
    }

    /** Set the latch when the state is synchronised and the latch is not yet set. */
    method UpdateSyncLatch()
      requires Valid()
      modifies this`syncEvent
      ensures Valid() && (syncEvent <==> old(syncEvent) || IsSynced(state.View()))
    {
      if state.Synced() && !syncEvent {
        syncEvent := true;
      }
    }

    /**
     * The callback `register_adapter_callback` wraps around an adapter.  Only
     * a received message updates the adapter.  The first delivery is
     * announced by an `initial` event, and later updates that change
     * nothing reach the callback not at all.
     */
    method AdapterCallback(adapter: Adapter.AltitudeStateAdapter, event: ClientEvent) returns (delivered: Option<AdapterDelivery>)
      modifies adapter
      ensures !event.ReceivedMessage? ==> delivered.None? && adapter.lastSnapshot == old(adapter.lastSnapshot)
      ensures event.ReceivedMessage? ==> adapter.lastSnapshot == Some(Adapter.SnapshotOf(state.View()))
      ensures event.ReceivedMessage? && old(adapter.lastSnapshot).None? ==>
        delivered == Some(AdapterDelivery(Adapter.SnapshotOf(state.View()), [], [InitialAdapterEvent]))
      ensures event.ReceivedMessage? && old(adapter.lastSnapshot).Some? ==>
        var previous, current := old(adapter.lastSnapshot).value, Adapter.SnapshotOf(state.View());
        && (delivered.None? <==> previous == current)
        && (delivered.Some? ==>
              delivered.value == AdapterDelivery(current, Adapter.Deltas(previous, current), Adapter.Events(previous, current)))
    {
      if !event.ReceivedMessage? {
        return None;
      }
      var initial := adapter.lastSnapshot.None?;
      var previous := adapter.lastSnapshot;
      var snapshot, deltas, events := adapter.Update(state);
      if initial {
        assert [InitialAdapterEvent] + events == [InitialAdapterEvent];
        return Some(AdapterDelivery(snapshot, deltas, [InitialAdapterEvent] + events));
      }
      Adapter.NoDeltasIffSame(previous.value, snapshot);
      if previous.value == snapshot {
        Adapter.NothingWhenSame(snapshot);
      }
      if deltas == [] && events == [] {
        return None;
      }
      delivered := Some(AdapterDelivery(snapshot, deltas, events));
    }

    // ---- Command methods that check their input ----

    /** The error a send of `_command` ends in under `env`, or none when the line goes out. */
    function SendFailure(env: SendEnv): Option<CommandError>
      reads this
    {
      if transport.NoTransport? || !transport.open || env == SendBroken then Some(NotConnectedError)
      else if env == SendTimedOut then Some(SendTimeoutError)
      else None
    }

    /** Send the first source, in catalog order, that carries `name`; an unknown name is refused. */
    method SourceSetByName(name: string, env: SendEnv) returns (r: Outcome<ClientError>)
      requires Valid()
      modifies this`sent, this`ackWaiters, this`nextWaiter
      ensures Valid()
      ensures ackWaiters == old(ackWaiters)
      ensures FirstKeyOf(state.sources, name).None? ==>
        (r == Fail(InvalidArgument(UnknownSourcePrefix + name)) && sent == old(sent))
      ensures FirstKeyOf(state.sources, name).Some? && SendFailure(env).None? ==>
        r == Pass && sent == old(sent) + [CommandLine(SourceSet(FirstKeyOf(state.sources, name).value))]
      ensures FirstKeyOf(state.sources, name).Some? && SendFailure(env).Some? ==>
        r == Fail(CommandFailed(SendFailure(env).value)) && sent == old(sent)
    {
      var id := SourceIdByName(state.sources, name);
      if id.None? {
        return Fail(InvalidArgument(UnknownSourcePrefix + name));
      }
      var s := SendCommand(CommandLine(SourceSet(id.value)), false, env);
      if s.SendError? {
        return Fail(CommandFailed(s.error));
      }
      return Pass;
    }

    /** Send the volume a percentage stands for; a percentage outside 0..100 is refused before sending. */
    method VolumePercentageSet(p: real, env: SendEnv) returns (r: Outcome<ClientError>)
      requires Valid()
      modifies this`sent, this`ackWaiters, this`nextWaiter
      ensures Valid()
      ensures ackWaiters == old(ackWaiters)
      ensures !(0.0 <= p <= 100.0) ==> r == Fail(InvalidArgument(PercentageRangeError)) && sent == old(sent)
      ensures 0.0 <= p <= 100.0 && SendFailure(env).None? ==>
        r == Pass && sent == old(sent) + [VolumePercentageLine(p).value]
      ensures 0.0 <= p <= 100.0 && SendFailure(env).Some? ==>
        r == Fail(CommandFailed(SendFailure(env).value)) && sent == old(sent)
    {
      var line := VolumePercentageLine(p);
      if line.Failure? {
        return Fail(InvalidArgument(line.error));
      }
      var s := SendCommand(line.value, false, env);
      if s.SendError? {
        return Fail(CommandFailed(s.error));
      }
      return Pass;
    }

    /** The current volume as a percentage of the range, when the volume is known. */
    function CurrentVolumePercentage(): (r: Option<real>)
      reads this, state
      ensures r.Some? <==> state.volume.Some?
      ensures r.Some? ==> VolumeOfPercentage(r.value) == state.volume.value
    {
      PercentageRoundTrip(0.0, if state.volume.Some? then state.volume.value else 0.0);
      VolumePercentage(state.volume)
    }
  }

  /** Removing the waiter just appended gives back the queue as it was. */
  lemma RemoveLast(q: seq<nat>, w: nat)
    requires w !in q
    ensures Remove(q + [w], w) == q
    decreases |q|
  {
    if q != [] {
      assert (q + [w])[1..] == q[1..] + [w];
      RemoveLast(q[1..], w);
    }
  }

  /**
   * Creating a client checks the MAC address, if one is given, before
   * anything else; a client that exists starts disconnected with nothing known.
   */
  method NewClient(clientId: string, mac: Option<string>, autoReconnect: bool,
                   initial: real, maximum: real, jitter: real)
    returns (r: Result<TrinnovAltitudeClient, MacError>)
    ensures r.Failure? <==> mac.Some? && ValidateMac(mac.value).Fail?
    ensures r.Failure? ==> r.error == MalformedMacAddress(mac.value)
    ensures r.Success? ==>
      (fresh(r.value) && r.value.Valid() && r.value.state.View() == Initial
       && r.value.transport == NoTransport && r.value.clientId == clientId && r.value.mac == mac)
  {
    if mac.Some? {
      var check := ValidateMac(mac.value);
      if check.Fail? {
        return Failure(check.error);
      }
    }
    var c := new TrinnovAltitudeClient(clientId, mac, autoReconnect, initial, maximum, jitter);
    r := Success(c);
  }
}
