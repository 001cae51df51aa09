/** The packet pump (nicLoop in device_pico2w.go): three fixed frame slots
    between the radio and the protocol stack, each with a buffer, a length
    (0 = empty) and a retry counter. One iteration polls the radio once,
    lets the stack fill idle slots, and sends every filled slot, retrying a
    failed frame until it has been tried four times. */
module Pump {
  import opened Base

  const QueueSize := 3
  const MaxRetriesBeforeDropping := 3

  /** What one HandleEth call does to a slot: the buffer it leaves, the
      count it returns, and whether it returned an error. */
  datatype Handled = Handled(buf: seq<Byte>, n: int, failed: bool)

  datatype Slot = Slot(buf: seq<Byte>, len: int, retries: int)

  function Zeros(size: nat): (z: seq<Byte>)
    ensures |z| == size && forall i :: 0 <= i < size ==> z[i] == 0
  {
    seq(size, _ => 0)
  }

  /** markSent: buffer zeroed, length and retries 0. */
  function Cleared(mtu: nat): Slot
  {
    Slot(Zeros(mtu), 0, 0)
  }

  /** The slot invariant at the top of every iteration: an idle slot is
      empty, and a slot awaiting retransmission holds a frame and has been
      retried at most three times. */
  predicate SlotOk(s: Slot, mtu: nat)
  {
    && |s.buf| == mtu
    && 0 <= s.len <= mtu
    && (s.retries == 0 ==> s.len == 0)
    && (s.retries > 0 ==> s.len > 0 && s.retries <= MaxRetriesBeforeDropping)
    && s.retries >= 0
  }

  predicate SlotsOk(s: seq<Slot>, mtu: nat)
  {
    |s| == QueueSize && forall i :: 0 <= i < |s| ==> SlotOk(s[i], mtu)
  }

  /** HandleEth keeps to its buffer: it writes within it and returns a
      count that fits. */
  predicate HandledOk(h: seq<Handled>, mtu: nat)
  {
    |h| == QueueSize && forall i :: 0 <= i < |h| ==> |h[i].buf| == mtu && 0 <= h[i].n <= mtu
  }

  /** The fill loop from slot `i` on: a slot under retry is skipped; an
      error empties the slot and moves on; a zero count ends the loop. */
  function FillFrom(s: seq<Slot>, h: seq<Handled>, i: nat): (r: seq<Slot>)
    requires |h| == |s| && i <= |s|
    ensures |r| == |s|
    ensures forall j :: 0 <= j < i ==> r[j] == s[j]
    ensures forall j :: i <= j < |s| && s[j].retries != 0 ==> r[j] == s[j]
    ensures forall j :: i <= j < |s| ==> r[j].retries == s[j].retries
    decreases |s| - i
  {
    if i == |s| then s
    else if s[i].retries != 0 then FillFrom(s, h, i + 1)
    else if h[i].failed then FillFrom(s[i := Slot(h[i].buf, 0, 0)], h, i + 1)
    else if h[i].n == 0 then s[i := Slot(h[i].buf, 0, 0)]
    else FillFrom(s[i := Slot(h[i].buf, h[i].n, 0)], h, i + 1)
  }

  function Fill(s: seq<Slot>, h: seq<Handled>): seq<Slot>
    requires |h| == |s|
  {
    FillFrom(s, h, 0)
  }

  /** The slots for which the fill loop calls HandleEth, in order. */
  function CallsFrom(s: seq<Slot>, h: seq<Handled>, i: nat): (c: seq<nat>)
    requires |h| == |s| && i <= |s|
    ensures forall k :: 0 <= k < |c| ==> i <= c[k] < |s| && s[c[k]].retries == 0
    ensures forall a, b :: 0 <= a < b < |c| ==> c[a] < c[b]
    decreases |s| - i
  {
    if i == |s| then []
    else if s[i].retries != 0 then CallsFrom(s, h, i + 1)
    else if !h[i].failed && h[i].n == 0 then [i]
    else [i] + CallsFrom(s, h, i + 1)
  }

  /** No slot has a frame after filling: the iteration is transmit-stalled. */
  predicate AllEmpty(s: seq<Slot>)
  {
    forall i :: 0 <= i < |s| ==> s[i].len == 0
  }

  /** The send step for one slot: an empty slot is skipped; a sent frame
      clears the slot; a failed send counts a retry and clears the slot once
      the count exceeds the maximum. */
  function SendSlot(s: Slot, ok: bool, mtu: nat): (r: Slot)
    ensures s.len > 0 ==> (r == Cleared(mtu) <==> ok || Drops(s, ok))
    ensures r != Cleared(mtu) ==>
      r.buf == s.buf && r.len == s.len && r.retries == (if s.len > 0 then s.retries + 1 else s.retries)
  {
    if s.len <= 0 then s
    else if ok then Cleared(mtu)
    else if s.retries + 1 > MaxRetriesBeforeDropping then Cleared(mtu)
    else s.(retries := s.retries + 1)
  }

  /** A failed send of a frame in the slot drops it. */
  predicate Drops(s: Slot, ok: bool)
  {
    s.len > 0 && !ok && s.retries + 1 > MaxRetriesBeforeDropping
  }

  function SendAll(s: seq<Slot>, ok: seq<bool>, mtu: nat): (r: seq<Slot>)
    requires |ok| == |s|
    ensures |r| == |s| && forall i :: 0 <= i < |s| ==> r[i] == SendSlot(s[i], ok[i], mtu)
  {
    seq(|s|, i requires 0 <= i < |s| => SendSlot(s[i], ok[i], mtu))
  }

  /** The slots after one iteration: fill, then send unless nothing was
      filled. */
  function Step(s: seq<Slot>, h: seq<Handled>, ok: seq<bool>, mtu: nat): (r: seq<Slot>)
    requires |h| == |s| && |ok| == |s|
    ensures |r| == |s|
    ensures forall i :: 0 <= i < |s| ==> r[i] == SendSlot(Fill(s, h)[i], ok[i], mtu)
  {
    var f := Fill(s, h);
    if AllEmpty(f) then f else SendAll(f, ok, mtu)
  }

  //--------------------------------------------------------------------
  // Properties of one iteration

  /** The fill step reaches slot `j`: no earlier slot ended it. */
  predicate Reaches(s: seq<Slot>, h: seq<Handled>, j: nat)
    requires |h| == |s| && j <= |s|
  {
    forall k :: 0 <= k < j ==> s[k].retries != 0 || h[k].failed || h[k].n != 0
  }

  /** Filling from `i` reaches every slot the whole fill reaches. */
  lemma {:induction false} FillFromReached(s: seq<Slot>, h: seq<Handled>, i: nat)
    requires |h| == |s| && i <= |s| && Reaches(s, h, i)
    ensures Fill(s, h) == FillFrom(FillPrefix(s, h, i), h, i)
    decreases i
  {
    if i > 0 {
      FillFromReached(s, h, i - 1);
      var p := FillPrefix(s, h, i - 1);
      assert p[i - 1] == s[i - 1];
    }
  }

  /** From slot `i` on, HandleEth is called for slot `j` exactly when the
      slot is idle and no slot from `i` up to `j` returned a zero count. */
  lemma {:induction false} CallsExactFrom(s: seq<Slot>, h: seq<Handled>, i: nat, j: nat)
    requires |h| == |s| && i <= j < |s|
    ensures j in CallsFrom(s, h, i) <==>
      (forall k :: i <= k < j ==> s[k].retries != 0 || h[k].failed || h[k].n != 0) && s[j].retries == 0
    decreases |s| - i
  {
    if i < j {
      CallsExactFrom(s, h, i + 1, j);
    }
  }

  /** The fill loop calls HandleEth for exactly the idle slots it reaches:
      every one of them, and none after a zero count. */
  lemma CallsExact(s: seq<Slot>, h: seq<Handled>, j: nat)
    requires |h| == |s| && j < |s|
    ensures j in CallsFrom(s, h, 0) <==> Reaches(s, h, j) && s[j].retries == 0
  {
    CallsExactFrom(s, h, 0, j);
  }

  /** The slots after the fill loop has handled slots 0..i-1 without
      stopping. */
  function FillPrefix(s: seq<Slot>, h: seq<Handled>, i: nat): (p: seq<Slot>)
    requires |h| == |s| && i <= |s|
    ensures |p| == |s|
    ensures forall j :: i <= j < |s| ==> p[j] == s[j]
    decreases i
  {
    if i == 0 then s
    else
      var p := FillPrefix(s, h, i - 1);
      if s[i - 1].retries != 0 then p
      else if h[i - 1].failed then p[i - 1 := Slot(h[i - 1].buf, 0, 0)]
      else p[i - 1 := Slot(h[i - 1].buf, h[i - 1].n, 0)]
  }

  /** The fill step never touches a slot under retry. */
  lemma FillSkipsRetrying(s: seq<Slot>, h: seq<Handled>, j: nat)
    requires |h| == |s| && j < |s| && s[j].retries != 0
    ensures Fill(s, h)[j] == s[j]
  {
  }

  /** A zero count from HandleEth ends the fill: no later slot changes. */
  lemma FillStopsAtZero(s: seq<Slot>, h: seq<Handled>, j: nat)
    requires |h| == |s| && j < |s| && Reaches(s, h, j)
    requires s[j].retries == 0 && !h[j].failed && h[j].n == 0
    ensures Fill(s, h)[j] == Slot(h[j].buf, 0, 0)
    ensures forall k :: j < k < |s| ==> Fill(s, h)[k] == s[k]
  {
    FillFromReached(s, h, j);
  }

  /** A HandleEth error leaves the slot empty and the fill goes on. */
  lemma FillContinuesAfterError(s: seq<Slot>, h: seq<Handled>, j: nat)
    requires |h| == |s| && j < |s| && Reaches(s, h, j)
    requires s[j].retries == 0 && h[j].failed
    ensures Fill(s, h)[j] == Slot(h[j].buf, 0, 0)
    ensures Reaches(s, h, j + 1)
  {
    FillFromReached(s, h, j);
    FillFromReached(s, h, j + 1);
  }

  /** The slot invariant holds again after every iteration. */
  lemma StepKeepsSlotsOk(s: seq<Slot>, h: seq<Handled>, ok: seq<bool>, mtu: nat)
    requires SlotsOk(s, mtu) && HandledOk(h, mtu) && |ok| == QueueSize
    ensures SlotsOk(Step(s, h, ok, mtu), mtu)
  {
    var f := Fill(s, h);
    FillShape(s, h, mtu, 0);
    if !AllEmpty(f) {
      var r := SendAll(f, ok, mtu);
      forall i | 0 <= i < |r| ensures SlotOk(r[i], mtu) {
        assert Sized(f[i], mtu);
      }
    } else {
      forall i | 0 <= i < |f| ensures SlotOk(f[i], mtu) {
        assert Sized(f[i], mtu);
      }
    }
  }

  /** A slot's buffer has the MTU's size and its length fits in it. */
  predicate Sized(s: Slot, mtu: nat)
  {
    |s.buf| == mtu && 0 <= s.len <= mtu
  }

  /** Filling keeps each slot's retries and the sizes of buffer and
      length. */
  lemma {:induction false} FillShape(s: seq<Slot>, h: seq<Handled>, mtu: nat, i: nat)
    requires |s| == QueueSize && HandledOk(h, mtu) && i <= |s|
    requires forall j :: 0 <= j < |s| ==> Sized(s[j], mtu)
    ensures forall j :: 0 <= j < |s| ==> Sized(FillFrom(s, h, i)[j], mtu)
    decreases |s| - i
  {
    if i < |s| {
      if s[i].retries != 0 {
        FillShape(s, h, mtu, i + 1);
      } else if h[i].failed {
        FillShape(s[i := Slot(h[i].buf, 0, 0)], h, mtu, i + 1);
      } else if h[i].n != 0 {
        FillShape(s[i := Slot(h[i].buf, h[i].n, 0)], h, mtu, i + 1);
      }
    }
  }

  /** A frame under retry whose send fails again: it is kept with one more
      retry, or dropped when this was its fourth attempt. */
  lemma RetriedFrame(s: seq<Slot>, h: seq<Handled>, ok: seq<bool>, mtu: nat, i: nat)
    requires SlotsOk(s, mtu) && HandledOk(h, mtu) && |ok| == QueueSize && i < QueueSize
    requires s[i].retries > 0 && !ok[i]
    ensures !AllEmpty(Fill(s, h))
    ensures Drops(Fill(s, h)[i], ok[i]) <==> s[i].retries == MaxRetriesBeforeDropping
    ensures Step(s, h, ok, mtu)[i] ==
      if s[i].retries == MaxRetriesBeforeDropping then Cleared(mtu) else s[i].(retries := s[i].retries + 1)
  {
    FillSkipsRetrying(s, h, i);
  }

  /** A frame the stack has just put in an idle slot, whose first send
      fails: it stays with one retry. */
  lemma NewFrameFirstFailure(s: seq<Slot>, h: seq<Handled>, ok: seq<bool>, mtu: nat, i: nat)
    requires SlotsOk(s, mtu) && HandledOk(h, mtu) && |ok| == QueueSize && i < QueueSize
    requires s[i].retries == 0 && Reaches(s, h, i) && !h[i].failed && h[i].n > 0 && !ok[i]
    ensures Step(s, h, ok, mtu)[i] == Slot(h[i].buf, h[i].n, 1)
    ensures !Drops(Fill(s, h)[i], ok[i])
  {
    FillFromReached(s, h, i);
    FillFromReached(s, h, i + 1);
    assert Fill(s, h)[i] == Slot(h[i].buf, h[i].n, 0);
  }

  /** A frame whose every send fails is tried in four consecutive
      iterations: it stays in its slot through the first three with 1, 2
      and 3 retries, and the fourth clears the slot and reports the drop;
      no earlier iteration reports it. */
  lemma FrameDroppedAfterFourAttempts(
    s0: seq<Slot>, mtu: nat, i: nat,
    h0: seq<Handled>, h1: seq<Handled>, h2: seq<Handled>, h3: seq<Handled>,
    ok0: seq<bool>, ok1: seq<bool>, ok2: seq<bool>, ok3: seq<bool>)
    requires SlotsOk(s0, mtu) && i < QueueSize
    requires HandledOk(h0, mtu) && HandledOk(h1, mtu) && HandledOk(h2, mtu) && HandledOk(h3, mtu)
    requires |ok0| == |ok1| == |ok2| == |ok3| == QueueSize
    requires s0[i].retries == 0 && Reaches(s0, h0, i) && !h0[i].failed && h0[i].n > 0
    requires !ok0[i] && !ok1[i] && !ok2[i] && !ok3[i]
    ensures var s1 := Step(s0, h0, ok0, mtu);
            var s2 := Step(s1, h1, ok1, mtu);
            var s3 := Step(s2, h2, ok2, mtu);
            var s4 := Step(s3, h3, ok3, mtu);
            && s1[i] == Slot(h0[i].buf, h0[i].n, 1)
            && s2[i] == Slot(h0[i].buf, h0[i].n, 2)
            && s3[i] == Slot(h0[i].buf, h0[i].n, 3)
            && s4[i] == Cleared(mtu)
            && !Drops(Fill(s0, h0)[i], ok0[i]) && !Drops(Fill(s1, h1)[i], ok1[i])
            && !Drops(Fill(s2, h2)[i], ok2[i]) && Drops(Fill(s3, h3)[i], ok3[i])
  {
    NewFrameFirstFailure(s0, h0, ok0, mtu, i);
    var s1 := Step(s0, h0, ok0, mtu);
    StepKeepsSlotsOk(s0, h0, ok0, mtu);
    RetriedFrame(s1, h1, ok1, mtu, i);
    var s2 := Step(s1, h1, ok1, mtu);
    StepKeepsSlotsOk(s1, h1, ok1, mtu);
    RetriedFrame(s2, h2, ok2, mtu, i);
    var s3 := Step(s2, h2, ok2, mtu);
    StepKeepsSlotsOk(s2, h2, ok2, mtu);
    RetriedFrame(s3, h3, ok3, mtu, i);
  }

  /** A frame that is sent clears its slot. */
  lemma SentFrameCleared(s: seq<Slot>, h: seq<Handled>, ok: seq<bool>, mtu: nat, i: nat)
    requires |h| == |s| && |ok| == |s| && i < |s| && ok[i] && Fill(s, h)[i].len > 0
    ensures Step(s, h, ok, mtu)[i] == Cleared(mtu)
  {
  }

  /** One turn of the fill loop at slot `i`, for the slots `cur` and the
      HandleEth calls `calls` made so far. */
  lemma FillAdvance(cur: seq<Slot>, s0: seq<Slot>, calls: seq<nat>, h: seq<Handled>, i: nat)
    requires |cur| == |s0| == |h| && i < |cur| && cur[i] == s0[i]
    ensures cur[i].retries != 0 ==>
      FillFrom(cur, h, i) == FillFrom(cur, h, i + 1) && CallsFrom(s0, h, i) == CallsFrom(s0, h, i + 1)
    ensures cur[i].retries == 0 && h[i].failed ==>
      && FillFrom(cur, h, i) == FillFrom(cur[i := Slot(h[i].buf, 0, 0)], h, i + 1)
      && calls + CallsFrom(s0, h, i) == (calls + [i]) + CallsFrom(s0, h, i + 1)
    ensures cur[i].retries == 0 && !h[i].failed && h[i].n == 0 ==>
      && FillFrom(cur, h, i) == FillFrom(cur[i := Slot(h[i].buf, 0, 0)], h, |cur|)
      && calls + CallsFrom(s0, h, i) == (calls + [i]) + CallsFrom(s0, h, |cur|)
    ensures cur[i].retries == 0 && !h[i].failed && h[i].n != 0 ==>
      && FillFrom(cur, h, i) == FillFrom(cur[i := Slot(h[i].buf, h[i].n, 0)], h, i + 1)
      && calls + CallsFrom(s0, h, i) == (calls + [i]) + CallsFrom(s0, h, i + 1)
  {
    if cur[i].retries == 0 {
      if !h[i].failed && h[i].n == 0 {
        assert CallsFrom(s0, h, |cur|) == [];
      } else {
        assert calls + ([i] + CallsFrom(s0, h, i + 1)) == (calls + [i]) + CallsFrom(s0, h, i + 1);
      }
    }
  }

  //--------------------------------------------------------------------

  /** The pump's state: nicLoop's three arrays. */
  class PacketPump {
    const mtu: nat
    const queue: array<seq<Byte>>
    const lenBuf: array<int>
    const retries: array<int>

    ghost predicate Valid()
      reads this, queue, lenBuf, retries
    {
      && queue.Length == QueueSize && lenBuf.Length == QueueSize && retries.Length == QueueSize
      && lenBuf != retries
      && SlotsOk(Slots(), mtu)
    }

    ghost function Slots(): (s: seq<Slot>)
      reads this, queue, lenBuf, retries
      requires queue.Length == QueueSize && lenBuf.Length == QueueSize && retries.Length == QueueSize
      ensures |s| == QueueSize
      ensures forall i :: 0 <= i < QueueSize ==> s[i] == Slot(queue[i], lenBuf[i], retries[i])
    {
      [Slot(queue[0], lenBuf[0], retries[0]),
       Slot(queue[1], lenBuf[1], retries[1]),
       Slot(queue[2], lenBuf[2], retries[2])]
    }

    /** The zeroed arrays nicLoop starts with. */
    constructor (mtu: nat)
      ensures Valid() && this.mtu == mtu
      ensures Slots() == [Cleared(mtu), Cleared(mtu), Cleared(mtu)]
      ensures fresh(queue) && fresh(lenBuf) && fresh(retries)
    {
      this.mtu := mtu;
      queue := new seq<Byte>[QueueSize](_ => Zeros(mtu));
      lenBuf := new int[QueueSize](_ => 0);
      retries := new int[QueueSize](_ => 0);
    }

    /** markSent(i). */
    method MarkSent(i: nat)
      requires i < QueueSize && queue.Length == QueueSize && lenBuf.Length == QueueSize && retries.Length == QueueSize
      requires lenBuf != retries
      modifies queue, lenBuf, retries
      ensures queue[..] == old(queue[..])[i := Zeros(mtu)]
      ensures lenBuf[..] == old(lenBuf[..])[i := 0]
      ensures retries[..] == old(retries[..])[i := 0]
    {
      queue[i] := Zeros(mtu);
      lenBuf[i] := 0;
      retries[i] := 0;
    }

    /** One HandleEth call for slot `i`: the slot takes the buffer it
      leaves and its count, or length 0 after an error. Returns whether
      the fill stops here. */
    method FillSlot(i: nat, handled: Handled) returns (stop: bool)
      requires queue.Length == QueueSize && lenBuf.Length == QueueSize && retries.Length == QueueSize
      requires lenBuf != retries && i < QueueSize && retries[i] == 0
      modifies queue, lenBuf
      ensures Slots() == old(Slots())[i := Slot(handled.buf, if handled.failed then 0 else handled.n, 0)]
      ensures stop <==> !handled.failed && handled.n == 0
    {
      queue[i] := handled.buf;
      lenBuf[i] := handled.n;
      if handled.failed {
        lenBuf[i] := 0;
        return false;
      }
      return lenBuf[i] == 0;
    }

    /** The fill loop: HandleEth is called for each slot not under retry,
      in order, until it returns no frame. */
    method FillQueue(h: seq<Handled>) returns (ghost calls: seq<nat>)
      requires queue.Length == QueueSize && lenBuf.Length == QueueSize && retries.Length == QueueSize
      requires lenBuf != retries && |h| == QueueSize
      modifies queue, lenBuf
      ensures Slots() == Fill(old(Slots()), h)
      ensures calls == CallsFrom(old(Slots()), h, 0)
    {
      ghost var s0 := Slots();
      ghost var filled, allCalls := Fill(s0, h), CallsFrom(s0, h, 0);
      var i := 0;
      calls := [];
      while i < QueueSize
        invariant 0 <= i <= QueueSize
        invariant FillFrom(Slots(), h, i) == filled
        invariant calls + CallsFrom(s0, h, i) == allCalls
        invariant forall j :: i <= j < QueueSize ==> Slots()[j] == s0[j]
      {
        FillAdvance(Slots(), s0, calls, h, i);
        if retries[i] != 0 {
          i := i + 1;
          continue;
        }
        calls := calls + [i];
        var stop := FillSlot(i, h[i]);
        if stop {
          i := QueueSize;
          break;
        }
        i := i + 1;
      }
    }

    /** The send loop: every filled slot is handed to SendEth; `dropped`
      lists the slots whose frame is given up. */
    method SendQueue(ok: seq<bool>) returns (dropped: seq<nat>, ghost calls: seq<nat>)
      requires queue.Length == QueueSize && lenBuf.Length == QueueSize && retries.Length == QueueSize
      requires lenBuf != retries && |ok| == QueueSize
      modifies queue, lenBuf, retries
      ensures Slots() == SendAll(old(Slots()), ok, mtu)
      ensures forall j :: (j in calls <==> 0 <= j < QueueSize && old(lenBuf[j]) > 0)
      ensures forall j :: (j in dropped <==> 0 <= j < QueueSize && Drops(old(Slots())[j], ok[j]))
    {
      ghost var f := Slots();
      dropped := [];
      calls := [];
      var i := 0;
      while i < QueueSize
        invariant 0 <= i <= QueueSize
        invariant forall j :: 0 <= j < i ==> Slot(queue[j], lenBuf[j], retries[j]) == SendSlot(f[j], ok[j], mtu)
        invariant forall j :: i <= j < QueueSize ==> Slot(queue[j], lenBuf[j], retries[j]) == f[j]
        invariant forall j :: (j in calls <==> 0 <= j < i && f[j].len > 0)
        invariant forall j :: (j in dropped <==> 0 <= j < i && Drops(f[j], ok[j]))
      {
        var n := lenBuf[i];
        if n <= 0 {
          i := i + 1;
          continue;
        }
        calls := calls + [i];
        if !ok[i] {
          retries[i] := retries[i] + 1;
          if retries[i] > MaxRetriesBeforeDropping {
            MarkSent(i);
            dropped := dropped + [i];
          }
        } else {
          MarkSent(i);
        }
        i := i + 1;
      }
    }

    /** One pass of nicLoop's `for {}` body. `polled` is PollOne's packet
      flag, `h[i]` what HandleEth does if called for slot i, `ok[i]` whether
      SendEth of slot i succeeds. Returns whether the iteration sleeps, and
      the slots whose frame is dropped. */
    method Iterate(polled: bool, h: seq<Handled>, ok: seq<bool>)
      returns (slept: bool, dropped: seq<nat>, ghost handleCalls: seq<nat>, ghost sendCalls: seq<nat>)
      requires Valid() && HandledOk(h, mtu) && |ok| == QueueSize
      modifies queue, lenBuf, retries
      ensures Valid()
      ensures Slots() == Step(old(Slots()), h, ok, mtu)
      ensures slept <==> AllEmpty(Fill(old(Slots()), h)) && !polled
      ensures handleCalls == CallsFrom(old(Slots()), h, 0)
      ensures AllEmpty(Fill(old(Slots()), h)) ==> sendCalls == [] && dropped == []
      ensures !AllEmpty(Fill(old(Slots()), h)) ==>
        (forall i :: 0 <= i < QueueSize ==> (i in sendCalls <==> Fill(old(Slots()), h)[i].len > 0))
        && (forall i :: 0 <= i < QueueSize ==> (i in dropped <==> Drops(Fill(old(Slots()), h)[i], ok[i])))
    {
      ghost var s0 := Slots();
      StepKeepsSlotsOk(s0, h, ok, mtu);
      var stallRx := !polled;
      handleCalls := FillQueue(h);
      ghost var f := Slots();
      var stallTx := lenBuf[0] == 0 && lenBuf[1] == 0 && lenBuf[2] == 0;
      assert stallTx <==> AllEmpty(f);
      if stallTx {
        slept := stallRx;
        dropped := [];
        sendCalls := [];
        return;
      }
      slept := false;
      dropped, sendCalls := SendQueue(ok);
    }
  }
}
