/**
 The I2C master side of the driver: the bus as the PIC32 peripheral library
 presents it, reduced to the events the driver causes and the answers the
 hardware gives, and `nxpRawWrite`, the one write transaction the driver
 performs on it.
 */
module I2c {
  import opened SevenSeg

  /** What the driver does on the bus, in order. */
  datatype Event = StartCondition | StopCondition | SendByte(b: Byte) | DelayMs(ms: nat)

  /**
   How the hardware answers, as a function of everything done so far (the
   event just attempted included): how many times in a row `I2CBusIsIdle`
   reports a busy bus when the driver starts waiting for it, whether a start
   condition was issued without a bus collision, whether the transmitter
   took a byte, and whether the slave acknowledged it.
   */
  datatype Answers = Answers(
    busyFor: seq<Event> -> nat,
    startOk: seq<Event> -> bool,
    accepted: seq<Event> -> bool,
    acked: seq<Event> -> bool)

  /**
   The busy answers still ahead of the driver: the rest of the current wait
   when it is `waiting`, otherwise those the next wait will meet after `tr`.
   */
  function Pending(ans: Answers, waiting: bool, busy: nat, tr: seq<Event>): nat
  {
    if waiting then busy else ans.busyFor(tr)
  }

  /** The I2C module `LCD_I2C_BUS` and the wire it drives. */
  class Bus {
    /** The events issued so far. */
    var trace: seq<Event>
    /** Whether the driver is in a wait for an idle bus that has not ended yet. */
    var waiting: bool
    /** How many more times `I2CBusIsIdle` answers busy in the current wait. */
    var busy: nat
    /** The answers of the hardware. */
    const answers: Answers

    constructor (answers: Answers)
      ensures this.answers == answers && trace == [] && !waiting && busy == 0
    {
      this.answers := answers;
      trace := [];
      waiting := false;
      busy := 0;
    }

    /** The busy answers still ahead of the driver. */
    function PendingBusy(): nat
      reads this
    {
      Pending(answers, waiting, busy, trace)
    }

    /**
     `I2CBusIsIdle`. The first poll of a wait meets as many busy answers as
     the hardware gives after the events so far; each busy answer uses one
     up, and the idle answer ends the wait.
     */
    method IsIdle() returns (idle: bool)
      modifies this
      ensures idle <==> old(PendingBusy()) == 0
      ensures waiting == !idle && busy == if idle then 0 else old(PendingBusy()) - 1
      ensures trace == old(trace)
    {
      var left := if waiting then busy else answers.busyFor(trace);
      idle := left == 0;
      busy := if idle then 0 else left - 1;
      waiting := !idle;
    }

    /** `I2CStop`: a stop condition. */
    method Stop()
      modifies this
      ensures trace == old(trace) + [StopCondition] && busy == old(busy) && waiting == old(waiting)
    {
      trace := trace + [StopCondition];
    }

    /** `delay_ms`, recorded in order with the bus events. */
    method Delay(ms: nat)
      modifies this
      ensures trace == old(trace) + [DelayMs(ms)] && busy == old(busy) && waiting == old(waiting)
    {
      trace := trace + [DelayMs(ms)];
    }

    /** `I2CStart`: true for `I2C_SUCCESS`, false for a bus collision. */
    method Start() returns (ok: bool)
      modifies this
      ensures trace == old(trace) + [StartCondition] && busy == old(busy) && waiting == old(waiting)
      ensures ok == answers.startOk(trace)
    {
      trace := trace + [StartCondition];
      ok := answers.startOk(trace);
    }

    /** `I2CSendByte`: true for `I2C_SUCCESS`. */
    method Send(b: Byte) returns (ok: bool)
      modifies this
      ensures trace == old(trace) + [SendByte(b)] && busy == old(busy) && waiting == old(waiting)
      ensures ok == answers.accepted(trace)
    {
      trace := trace + [SendByte(b)];
      ok := answers.accepted(trace);
    }

    /** `I2CByteWasAcknowledged`, for the byte sent last. */
    method Acknowledged() returns (ack: bool)
      ensures ack == answers.acked(trace)
    {
      ack := answers.acked(trace);
    }
  }

  /** The status a transaction returns and the events it leaves. */
  datatype Outcome = Outcome(rc: int, trace: seq<Event>)

  /** `k` turns of the busy-recovery loop: each a stop condition, then 2 ms. */
  function Recovery(k: nat): (r: seq<Event>)
    ensures |r| == 2 * k
    ensures forall i :: 0 <= i < |r| ==> r[i] == if i % 2 == 0 then StopCondition else DelayMs(2)
  {
    if k == 0 then [] else Recovery(k - 1) + [StopCondition, DelayMs(2)]
  }

  /** The events of sending `bs`, one byte after the other. */
  function Sends(bs: seq<Byte>): (r: seq<Event>)
    ensures |r| == |bs|
  {
    if bs == [] then [] else [SendByte(bs[0])] + Sends(bs[1..])
  }

  /** The data loop of `nxpRawWrite` after `tr`: 4 for a refused byte, 5 for a nack, 0 when all went. */
  function DataPhase(ans: Answers, tr: seq<Event>, data: seq<Byte>): (r: Outcome)
    ensures r.rc == 0 || r.rc == 4 || r.rc == 5
    ensures tr <= r.trace && |r.trace| <= |tr| + |data|
    decreases |data|
  {
    if data == [] then Outcome(0, tr)
    else
      var t := tr + [SendByte(data[0])];
      if !ans.accepted(t) then Outcome(4, t)
      else if !ans.acked(t) then Outcome(5, t)
      else DataPhase(ans, t, data[1..])
  }

  /**
   `nxpRawWrite(sa, data, |data|)` on a bus with history `tr` that answers
   busy `busy` times before it reports idle: recovery, start (1 on a
   collision), the slave address (2 refused, 3 nack), the data, and a stop
   only after complete success.
   */
  function Transaction(ans: Answers, busy: nat, tr: seq<Event>, sa: Byte, data: seq<Byte>): (r: Outcome)
    ensures 0 <= r.rc <= 5
    ensures tr + Recovery(busy) + [StartCondition] <= r.trace
  {
    var t1 := tr + Recovery(busy) + [StartCondition];
    if !ans.startOk(t1) then Outcome(1, t1)
    else
      var t2 := t1 + [SendByte(sa)];
      if !ans.accepted(t2) then Outcome(2, t2)
      else if !ans.acked(t2) then Outcome(3, t2)
      else
        var d := DataPhase(ans, t2, data);
        if d.rc == 0 then Outcome(0, d.trace + [StopCondition]) else d
  }

  /** Byte `j` of `bytes`, sent after `tr` and the bytes before it, is taken and acknowledged. */
  ghost predicate Passes(ans: Answers, tr: seq<Event>, bytes: seq<Byte>, j: nat)
    requires j < |bytes|
  {
    var t := tr + Sends(bytes[..j + 1]);
    ans.accepted(t) && ans.acked(t)
  }

  /** The index of the first byte of `bytes`, sent after `tr`, that does not pass; `|bytes|` when all do. */
  function FirstFailure(ans: Answers, tr: seq<Event>, bytes: seq<Byte>): (k: nat)
    ensures k <= |bytes|
    decreases |bytes|
  {
    if bytes == [] then 0
    else
      var t := tr + [SendByte(bytes[0])];
      if ans.accepted(t) && ans.acked(t) then 1 + FirstFailure(ans, t, bytes[1..]) else 0
  }

  /** Sending `bs[..j + 1]` is sending its first byte, then `bs[1..][..j]`. */
  lemma SendsPrefix(bs: seq<Byte>, j: nat)
    requires j < |bs|
    ensures Sends(bs[..j + 1]) == [SendByte(bs[0])] + Sends(bs[1..][..j])
  {
    assert bs[..j + 1][0] == bs[0];
    assert bs[..j + 1][1..] == bs[1..][..j];
  }

  /** `FirstFailure` is what its name says: every byte before it passes, and it does not. */
  lemma {:induction false} FirstFailureSpec(ans: Answers, tr: seq<Event>, bytes: seq<Byte>)
    ensures forall j :: 0 <= j < FirstFailure(ans, tr, bytes) ==> Passes(ans, tr, bytes, j)
    ensures FirstFailure(ans, tr, bytes) < |bytes| ==> !Passes(ans, tr, bytes, FirstFailure(ans, tr, bytes))
    decreases |bytes|
  {
    if bytes != [] {
      var t := tr + [SendByte(bytes[0])];
      var r := bytes[1..];
      SendsPrefix(bytes, 0);
      assert Sends(bytes[..1]) == [SendByte(bytes[0])];
      if ans.accepted(t) && ans.acked(t) {
        FirstFailureSpec(ans, t, r);
        var k := FirstFailure(ans, tr, bytes);
        forall j | 0 <= j < k
          ensures Passes(ans, tr, bytes, j)
        {
          if j > 0 {
            SendsPrefix(bytes, j);
            assert tr + Sends(bytes[..j + 1]) == t + Sends(r[..j]);
            assert Passes(ans, t, r, j - 1);
          }
        }
        if k < |bytes| {
          SendsPrefix(bytes, k);
          assert tr + Sends(bytes[..k + 1]) == t + Sends(r[..k]);
          assert !Passes(ans, t, r, k - 1);
        }
      }
    }
  }

  /** The data loop sends up to and including the first failing byte, and stops there. */
  lemma {:induction false} DataPhaseOutcome(ans: Answers, tr: seq<Event>, data: seq<Byte>)
    ensures FirstFailure(ans, tr, data) == |data| ==> DataPhase(ans, tr, data) == Outcome(0, tr + Sends(data))
    ensures FirstFailure(ans, tr, data) < |data| ==>
      var o := DataPhase(ans, tr, data);
      o.trace == tr + Sends(data[..FirstFailure(ans, tr, data) + 1]) &&
      o.rc == if ans.accepted(o.trace) then 5 else 4
    decreases |data|
  {
    if data != [] {
      var t := tr + [SendByte(data[0])];
      var k := FirstFailure(ans, tr, data);
      if ans.accepted(t) && ans.acked(t) {
        DataPhaseOutcome(ans, t, data[1..]);
        if k < |data| {
          SendsPrefix(data, k);
        }
      } else {
        SendsPrefix(data, 0);
        assert data[1..][..0] == [];
      }
    }
  }

  /**
   The whole transaction, in terms of the first byte that fails: a failed
   start ends it at once with 1; otherwise it sends the slave address and
   the data up to and including the first byte refused (2 or 4) or not
   acknowledged (3 or 5), and only when every byte passes does it issue a
   stop and return 0.
   */
  lemma TransactionOutcome(ans: Answers, busy: nat, tr: seq<Event>, sa: Byte, data: seq<Byte>)
    ensures var pre := tr + Recovery(busy) + [StartCondition];
      !ans.startOk(pre) ==> Transaction(ans, busy, tr, sa, data) == Outcome(1, pre)
    ensures var pre := tr + Recovery(busy) + [StartCondition];
      var bytes := [sa] + data;
      ans.startOk(pre) && FirstFailure(ans, pre, bytes) == |bytes| ==>
      Transaction(ans, busy, tr, sa, data) == Outcome(0, pre + Sends(bytes) + [StopCondition])
    ensures var pre := tr + Recovery(busy) + [StartCondition];
      var bytes := [sa] + data;
      var k := FirstFailure(ans, pre, bytes);
      var o := Transaction(ans, busy, tr, sa, data);
      ans.startOk(pre) && k < |bytes| ==>
      o.trace == pre + Sends(bytes[..k + 1]) &&
      o.rc == (if k == 0 then 2 else 4) + (if ans.accepted(o.trace) then 1 else 0)
  {
    var pre := tr + Recovery(busy) + [StartCondition];
    var bytes := [sa] + data;
    var t2 := pre + [SendByte(sa)];
    assert bytes[0] == sa && bytes[1..] == data;
    if ans.startOk(pre) {
      var k := FirstFailure(ans, pre, bytes);
      if ans.accepted(t2) && ans.acked(t2) {
        DataPhaseOutcome(ans, t2, data);
        if k < |bytes| {
          SendsPrefix(bytes, k);
          assert pre + Sends(bytes[..k + 1]) == t2 + Sends(data[..k]);
        } else {
          assert pre + Sends(bytes) == t2 + Sends(data);
        }
      } else {
        SendsPrefix(bytes, 0);
        assert Sends(bytes[..1]) == [SendByte(sa)];
      }
    }
  }

  /** A transaction returns one of the codes 0..5, and 0 exactly when the start and every byte pass. */
  lemma TransactionCodes(ans: Answers, busy: nat, tr: seq<Event>, sa: Byte, data: seq<Byte>)
    ensures 0 <= Transaction(ans, busy, tr, sa, data).rc <= 5
    ensures Transaction(ans, busy, tr, sa, data).rc == 0 <==>
      var pre := tr + Recovery(busy) + [StartCondition];
      ans.startOk(pre) && FirstFailure(ans, pre, [sa] + data) == 1 + |data|
  {
    TransactionOutcome(ans, busy, tr, sa, data);
  }

  /** The sends of a sequence of bytes hold no stop condition. */
  lemma {:induction false} SendsHaveNoStop(bs: seq<Byte>)
    ensures StopCondition !in Sends(bs)
  {
    if bs != [] {
      SendsHaveNoStop(bs[1..]);
    }
  }

  /** After a failure no stop condition follows the recovery loop. */
  lemma NoStopAfterFailure(ans: Answers, busy: nat, tr: seq<Event>, sa: Byte, data: seq<Byte>)
    requires Transaction(ans, busy, tr, sa, data).rc != 0
    ensures var o := Transaction(ans, busy, tr, sa, data);
      var n := |tr + Recovery(busy)|;
      n < |o.trace| && o.trace[n] == StartCondition && StopCondition !in o.trace[n..]
  {
    TransactionOutcome(ans, busy, tr, sa, data);
    var pre := tr + Recovery(busy) + [StartCondition];
    var bytes := [sa] + data;
    var o := Transaction(ans, busy, tr, sa, data);
    var n := |tr + Recovery(busy)|;
    if ans.startOk(pre) {
      var k := FirstFailure(ans, pre, bytes);
      SendsHaveNoStop(bytes[..k + 1]);
      assert o.trace[n..] == [StartCondition] + Sends(bytes[..k + 1]);
    } else {
      assert o.trace[n..] == [StartCondition];
    }
  }

  /**
   The recovery loop at the head of `nxpRawWrite`: while the bus is busy,
   issue a stop condition and wait 2 ms; the wait ends on the idle answer.
   */
  method AwaitIdle(bus: Bus)
    modifies bus
    ensures bus.trace == old(bus.trace) + Recovery(old(bus.PendingBusy()))
    ensures !bus.waiting && bus.busy == 0
  {
    ghost var tr0, busy0 := bus.trace, bus.PendingBusy();
    var idle := bus.IsIdle();
    while !idle
      invariant idle ==> !bus.waiting && bus.busy == 0 && bus.trace == tr0 + Recovery(busy0)
      invariant !idle ==> bus.waiting && bus.busy < busy0 && bus.trace == tr0 + Recovery(busy0 - bus.busy - 1)
      decreases bus.busy, !idle
    {
      bus.Stop();
      bus.Delay(2);
      assert bus.trace == tr0 + Recovery(busy0 - bus.busy);
      idle := bus.IsIdle();
    }
  }

  /**
   `nxpRawWrite(sa, data, n)`: wait for an idle bus, issuing a stop and a
   2 ms delay each time it is busy, then start, send `sa` and `data[0..n)`,
   each checked for acceptance and acknowledgement, and stop. Returns 0 on
   success, or 1..5 at the first failure, with no stop after it.
   */
  method RawWrite(bus: Bus, sa: Byte, data: array<Byte>, n: int) returns (rc: int)
    requires n <= data.Length
    modifies bus
    ensures Outcome(rc, bus.trace) ==
      Transaction(bus.answers, old(bus.PendingBusy()), old(bus.trace), sa, data[..if n < 0 then 0 else n])
    ensures !bus.waiting && bus.busy == 0
  {
    ghost var m := if n < 0 then 0 else n;
    AwaitIdle(bus);

    var ok := bus.Start();
    if !ok {
      return 1;
    }
    ok := bus.Send(sa);
    if !ok {
      return 2;
    }
    var ack := bus.Acknowledged();
    if !ack {
      return 3;
    }

    ghost var t2 := bus.trace;
    var i := 0;
    while i < n
      invariant 0 <= i <= m && !bus.waiting && bus.busy == 0
      invariant DataPhase(bus.answers, t2, data[..m]) == DataPhase(bus.answers, bus.trace, data[i..m])
    {
      assert data[i..m][0] == data[i] && data[i..m][1..] == data[i + 1..m];
      ok := bus.Send(data[i]);
      if !ok {
        return 4;
      }
      ack := bus.Acknowledged();
      if !ack {
        return 5;
      }
      i := i + 1;
    }
    bus.Stop();
    rc := 0;
  }
}
