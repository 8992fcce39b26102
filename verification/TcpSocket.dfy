/** The send side of `TCPSocket`: a buffer drained by a kernel that may take less than offered, or nothing. */
module TcpSockets {
  import opened Types
  import opened Wire

  datatype SendResult = Taken | Full | Refused

  /** What one call to the kernel may answer. */
  datatype Kernel = Wrote(n: nat) | Interrupted | WouldBlock | Failed

  /** Whether the connection is still good. */
  datatype Link = Open | Closed

  /** Bytes handed to the kernel, bytes still waiting, and the connection. */
  datatype Outgoing = Outgoing(sent: seq<byte>, waiting: seq<byte>, link: Link)

  const FLUSH_BUDGET: nat := 8

  /** One call: a write of no bytes is an error like any other. */
  function Offer(o: Outgoing, k: Kernel): Outgoing {
    match k
    case Wrote(n) =>
      var m := Min(n, |o.waiting|);
      if m == 0 then o.(link := Closed) else o.(sent := o.sent + o.waiting[..m], waiting := o.waiting[m..])
    case Failed => o.(link := Closed)
    case _ => o
  }

  /** Up to the budget of calls, until nothing waits, the kernel blocks or the connection fails. */
  function Flush(o: Outgoing, kernel: seq<Kernel>, calls: nat): Outgoing
    requires calls <= FLUSH_BUDGET <= |kernel|
    decreases FLUSH_BUDGET - calls
  {
    if calls == FLUSH_BUDGET || o.waiting == [] || o.link.Closed? || kernel[calls].WouldBlock? then o
    else
      var o' := Offer(o, kernel[calls]);
      if o'.link.Closed? then o' else Flush(o', kernel, calls + 1)
  }

  lemma FlushStep(o: Outgoing, kernel: seq<Kernel>, calls: nat)
    requires calls < FLUSH_BUDGET <= |kernel| && o.waiting != [] && o.link.Open?
    ensures Flush(o, kernel, calls) ==
            if kernel[calls].WouldBlock? then o
            else if Offer(o, kernel[calls]).link.Closed? then Offer(o, kernel[calls])
            else Flush(Offer(o, kernel[calls]), kernel, calls + 1)
  {
  }

  lemma FlushEnds(o: Outgoing, kernel: seq<Kernel>, calls: nat)
    requires calls <= FLUSH_BUDGET <= |kernel| && (calls == FLUSH_BUDGET || o.waiting == [])
    ensures Flush(o, kernel, calls) == o
  {
  }

  /** Nothing is lost, repeated or reordered, whatever the kernel answers. */
  lemma {:induction false} FlushConserves(o: Outgoing, kernel: seq<Kernel>, calls: nat)
    requires calls <= FLUSH_BUDGET <= |kernel|
    ensures var o' := Flush(o, kernel, calls);
            o'.sent + o'.waiting == o.sent + o.waiting && o.sent <= o'.sent
    decreases FLUSH_BUDGET - calls
  {
    if !(calls == FLUSH_BUDGET || o.waiting == [] || o.link.Closed? || kernel[calls].WouldBlock?) {
      var o' := Offer(o, kernel[calls]);
      assert o'.sent + o'.waiting == o.sent + o.waiting;
      if o'.link.Open? { FlushConserves(o', kernel, calls + 1); }
    }
  }

  /** What happens to a connection: a message to send, or a round of flushing. */
  datatype Action = Message(data: seq<byte>) | Drain(kernel: seq<Kernel>)

  /** A message is taken whole or not at all. */
  function Push(o: Outgoing, capacity: nat, data: seq<byte>): (Outgoing, SendResult) {
    if o.link.Closed? || data == [] then (o, Refused)
    else if |data| + |o.waiting| > capacity then (o, Full)
    else (o.(waiting := o.waiting + data), Taken)
  }

  /** The connection and all messages it has taken. */
  datatype Stream = Stream(out: Outgoing, accepted: seq<byte>)

  function Act(s: Stream, capacity: nat, a: Action): Stream {
    match a
    case Message(data) =>
      var (o, r) := Push(s.out, capacity, data);
      Stream(o, if r.Taken? then s.accepted + data else s.accepted)
    case Drain(kernel) =>
      if |kernel| < FLUSH_BUDGET || s.out.link.Closed? then s else s.(out := Flush(s.out, kernel, 0))
  }

  function ActAll(capacity: nat, xs: seq<Action>): Stream {
    if xs == [] then Stream(Outgoing([], [], Open), []) else Act(ActAll(capacity, xs[..|xs| - 1]), capacity, xs[|xs| - 1])
  }

  /** For any sequence of sends and of short, interrupted, blocked or failed writes: the bytes handed to the
      kernel, followed by those still waiting, are the messages taken, and what waits fits the buffer. */
  lemma {:induction false} StreamConserved(capacity: nat, xs: seq<Action>)
    ensures var s := ActAll(capacity, xs);
            s.out.sent + s.out.waiting == s.accepted && |s.out.waiting| <= capacity
  {
    if xs != [] {
      StreamConserved(capacity, xs[..|xs| - 1]);
      var s := ActAll(capacity, xs[..|xs| - 1]);
      match xs[|xs| - 1]
      case Message(data) => assert s.out.sent + (s.out.waiting + data) == (s.out.sent + s.out.waiting) + data;
      case Drain(kernel) =>
        if |kernel| >= FLUSH_BUDGET {
          hide Flush;
          FlushConserves(s.out, kernel, 0);
          var o' := Flush(s.out, kernel, 0);
          assert |o'.sent| + |o'.waiting| == |s.out.sent| + |s.out.waiting|;
        }
    }
  }

  /** After any history: a message is taken, behind all others, exactly when the connection is open, it is not empty and
      it fits beside what waits; otherwise nothing changes. */
  lemma TakenExactlyWhen(capacity: nat, xs: seq<Action>, data: seq<byte>)
    ensures var s, s' := ActAll(capacity, xs), ActAll(capacity, xs + [Message(data)]);
            if s.out.link.Open? && data != [] && |s.out.waiting| + |data| <= capacity
            then s' == Stream(s.out.(waiting := s.out.waiting + data), s.accepted + data)
            else s' == s
  {
    assert (xs + [Message(data)])[..|xs|] == xs;
  }

  /** A kernel that takes something at every call, unless it is interrupted. */
  predicate Willing(kernel: seq<Kernel>) {
    forall i :: 0 <= i < |kernel| ==> kernel[i].Interrupted? || (kernel[i].Wrote? && kernel[i].n > 0)
  }

  /** What it would take in the calls left. */
  function Appetite(kernel: seq<Kernel>, calls: nat): nat
    requires calls <= FLUSH_BUDGET <= |kernel|
    decreases FLUSH_BUDGET - calls
  {
    if calls == FLUSH_BUDGET then 0
    else (if kernel[calls].Wrote? then kernel[calls].n else 0) + Appetite(kernel, calls + 1)
  }

  lemma Sliced(s: seq<byte>, i: nat, j: nat, m: nat)
    requires i + m <= j <= |s|
    ensures s[i..j][..m] == s[i..i + m] && s[i..j][m..] == s[i + m..j]
  {
  }

  lemma TwoBites(sent: seq<byte>, waiting: seq<byte>, a: nat, b: nat)
    requires a + b <= |waiting|
    ensures sent + waiting[..a] + waiting[a..][..b] == sent + waiting[..a + b] && waiting[a..][b..] == waiting[a + b..]
  {
    assert waiting[..a] + waiting[a..][..b] == waiting[..a + b];
  }

  /** A willing kernel drains the buffer, as far as it takes bytes within the budget, and the connection stays open. */
  lemma {:induction false} WillingDrains(o: Outgoing, kernel: seq<Kernel>, calls: nat)
    requires calls <= FLUSH_BUDGET <= |kernel| && Willing(kernel) && o.link.Open?
    ensures var m := Min(Appetite(kernel, calls), |o.waiting|);
            Flush(o, kernel, calls) == Outgoing(o.sent + o.waiting[..m], o.waiting[m..], Open)
    decreases FLUSH_BUDGET - calls
  {
    hide Flush;
    if calls == FLUSH_BUDGET || o.waiting == [] {
      FlushEnds(o, kernel, calls);
      assert o.sent + [] == o.sent && o.waiting[0..] == o.waiting;
    } else {
      WillingDrains(Offer(o, kernel[calls]), kernel, calls + 1);
      FlushStep(o, kernel, calls);
      if kernel[calls].Wrote? {
        var a := Min(kernel[calls].n, |o.waiting|);
        TwoBites(o.sent, o.waiting, a, Min(Appetite(kernel, calls + 1), |o.waiting| - a));
      }
    }
  }

  /** What the kernel takes in the calls from `calls` up to `j`. */
  function Taking(kernel: seq<Kernel>, calls: nat, j: nat): nat
    requires calls <= j <= |kernel|
    decreases j - calls
  {
    if calls == j then 0 else (if kernel[calls].Wrote? then kernel[calls].n else 0) + Taking(kernel, calls + 1, j)
  }

  /** A flush ends with the first answer that ends it: the bytes taken so far are sent, the rest waits, and the
      connection is closed by a failure or a write of nothing and kept by a kernel that would block. */
  lemma {:induction false} FlushStops(o: Outgoing, kernel: seq<Kernel>, calls: nat, j: nat)
    requires calls <= j < FLUSH_BUDGET <= |kernel| && o.link.Open? && Taking(kernel, calls, j) < |o.waiting|
    requires Willing(kernel[calls..j]) && !Willing([kernel[j]])
    ensures var m := Taking(kernel, calls, j);
            Flush(o, kernel, calls)
            == Outgoing(o.sent + o.waiting[..m], o.waiting[m..], if kernel[j].WouldBlock? then Open else Closed)
    decreases j - calls
  {
    hide Flush;
    FlushStep(o, kernel, calls);
    if calls == j {
      assert Willing([kernel[j]]) || [kernel[j]][0] == kernel[j];
      assert o.sent + [] == o.sent && o.waiting[0..] == o.waiting && o.waiting[..0] == [];
    } else {
      assert kernel[calls..j][0] == kernel[calls] && kernel[calls..j][1..] == kernel[calls + 1..j];
      FlushStops(Offer(o, kernel[calls]), kernel, calls + 1, j);
      var a := if kernel[calls].Wrote? then kernel[calls].n else 0;
      if a > 0 { TwoBites(o.sent, o.waiting, a, Taking(kernel, calls + 1, j)); }
    }
  }

  class TCPSocket {
    const outbound: array<byte>
    var sendBegin: nat
    var pendingBytes: nat
    var state: Link
    var sentBytes: nat

    /** All bytes the kernel has taken. */
    ghost var sent: seq<byte>

    ghost predicate Valid()
      reads this
    {
      sendBegin + pendingBytes <= outbound.Length && sentBytes == |sent|
    }

    ghost function Contents(): Outgoing
      reads this, outbound
      requires Valid()
    {
      Outgoing(sent, outbound[sendBegin..sendBegin + pendingBytes], state)
    }

    constructor (capacity: nat)
      requires capacity > 0
      ensures Valid() && Contents() == Outgoing([], [], Open) && outbound.Length == capacity && fresh(outbound)
    {
      outbound := new byte[capacity](i => 0);
      sendBegin, pendingBytes, sentBytes, state := 0, 0, 0, Open;
      sent := [];
    }

    /** Moves the waiting bytes to the front; the regions may overlap. */
    method Compact()
      requires Valid()
      modifies `sendBegin, outbound
      ensures Valid() && sendBegin == 0 && Contents() == old(Contents())
    {
      forall i | 0 <= i < pendingBytes { outbound[i] := outbound[sendBegin + i]; }
      sendBegin := 0;
    }

    /** Copies the message behind the waiting bytes. */
    method Append(data: seq<byte>)
      requires Valid() && sendBegin + pendingBytes + |data| <= outbound.Length
      modifies `pendingBytes, outbound
      ensures Valid() && Contents() == old(Contents()).(waiting := old(Contents()).waiting + data)
    {
      ghost var before := Contents().waiting;
      var at := sendBegin + pendingBytes;
      forall i | 0 <= i < |data| { outbound[at + i] := data[i]; }
      assert outbound[sendBegin..at] == before;
      assert outbound[at..at + |data|] == data;
      pendingBytes := pendingBytes + |data|;
      assert outbound[sendBegin..at + |data|] == before + data;
    }

    method Send(data: seq<byte>) returns (r: SendResult)
      requires Valid()
      modifies this, outbound
      ensures Valid() && (Contents(), r) == Push(old(Contents()), outbound.Length, data)
    {
      if state.Closed? || data == [] {
        return Refused;
      }
      if |data| > outbound.Length - pendingBytes {
        return Full;
      }
      if sendBegin + pendingBytes + |data| > outbound.Length {
        Compact();
      }
      Append(data);
      r := Taken;
    }

    /** The kernel took the first `m` waiting bytes. */
    method Advance(m: nat)
      requires Valid() && 0 < m <= pendingBytes
      modifies `sent, `sendBegin, `pendingBytes, `sentBytes
      ensures Valid()
      ensures Contents() == old(Contents()).(sent := old(Contents()).sent + old(Contents()).waiting[..m],
                                             waiting := old(Contents()).waiting[m..])
    {
      ghost var all := outbound[..];
      Sliced(all, sendBegin, sendBegin + pendingBytes, m);
      assert outbound[sendBegin..sendBegin + pendingBytes] == all[sendBegin..sendBegin + pendingBytes];
      assert outbound[sendBegin..sendBegin + m] == all[sendBegin..sendBegin + m];
      assert outbound[sendBegin + m..sendBegin + pendingBytes] == all[sendBegin + m..sendBegin + pendingBytes];
      sent := sent + outbound[sendBegin..sendBegin + m];
      sendBegin, pendingBytes, sentBytes := sendBegin + m, pendingBytes - m, sentBytes + m;
    }

    /** `flushSend`: what the kernel answers to each of the calls is not ours to choose. */
    method FlushSend(kernel: seq<Kernel>) returns (healthy: bool)
      requires Valid() && FLUSH_BUDGET <= |kernel|
      modifies this
      ensures Valid() && healthy == state.Open?
      ensures Contents() == if old(state).Closed? then old(Contents()) else Flush(old(Contents()), kernel, 0)
    {
      hide Flush;
      if state.Closed? {
        return false;
      }
      ghost var goal := Flush(Contents(), kernel, 0);
      var budget := 0;
      ghost var blocked := false;
      while budget < FLUSH_BUDGET && pendingBytes > 0
        invariant budget <= FLUSH_BUDGET && Valid() && state.Open?
        invariant !blocked && goal == Flush(Contents(), kernel, budget)
      {
        FlushStep(Contents(), kernel, budget);
        match kernel[budget] {
          case Wrote(n) =>
            var m := Min(n, pendingBytes);
            if m == 0 {
              state := Closed;
              return false;
            }
            Advance(m);
          case Interrupted =>
          case WouldBlock =>
            blocked := true;
            break;
          case Failed =>
            state := Closed;
            return false;
        }
        budget := budget + 1;
      }
      if !blocked { FlushEnds(Contents(), kernel, budget); }
      if pendingBytes == 0 { sendBegin := 0; }
      healthy := true;
    }
  }
}
