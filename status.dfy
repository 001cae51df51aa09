/** The device status shown by blinking the LED (status.go): a closed set of
    codes, a current code with a repeat counter, and one round of the
    display loop. */
module Status {
  import opened Base

  const StatUNK := 0
  const StatOK := 1
  const StatDEV := 2
  const StatNS := 3
  const StatSRV := 4
  const StatIP := 5
  const StatWIFI := 6
  const StatWPA2 := 7
  const StatDHCP1 := 8
  const StatDHCP2 := 9
  const StatLISTEN1 := 10
  const StatLISTEN2 := 11
  const StatPORT := 12
  const StatEXCP := 13

  /** The codes in declaration order. */
  function Codes(): seq<int>
  {
    [StatUNK, StatOK, StatDEV, StatNS, StatSRV, StatIP, StatWIFI, StatWPA2,
     StatDHCP1, StatDHCP2, StatLISTEN1, StatLISTEN2, StatPORT, StatEXCP]
  }

  /** The codes are the consecutive values 0..13, hence pairwise distinct. */
  lemma CodesAreConsecutive()
    ensures |Codes()| == 14
    ensures forall i :: 0 <= i < |Codes()| ==> Codes()[i] == i
    ensures forall i, j :: 0 <= i < j < |Codes()| ==> Codes()[i] != Codes()[j]
  {
  }

  /** The display state: the shown code and the repeat counter, both int32. */
  datatype Display = Display(curr: int, repeat: int)

  /** The blink pattern of a code: `long` blinks of weight five, then `short`
      blinks of weight one. The long loop runs while the rest exceeds 5, and
      the short loop runs the rest when it is positive. */
  function Blinks(num: int): (p: (nat, nat))
    ensures num >= 1 ==> 5 * p.0 + p.1 == num && 1 <= p.1 <= 5
    ensures num <= 0 ==> p == (0, 0)
    decreases num
  {
    if num > 5 then
      var rest := Blinks(num - 5);
      (rest.0 + 1, rest.1)
    else if num > 0 then (0, num)
    else (0, 0)
  }

  /** Distinct positive codes blink distinct patterns. */
  lemma BlinksAreDistinct(a: int, b: int)
    requires a >= 1 && b >= 1 && a != b
    ensures Blinks(a) != Blinks(b)
  {
  }

  /** One round of the display goroutine: show `curr`, then decrement the
      counter (Add(-1) on an int32, which wraps) and revert to StatOK when the
      new value is exactly 0. */
  function Round(d: Display): (e: Display)
    ensures e.repeat == ToInt32(d.repeat - 1)
    ensures e.curr == (if e.repeat == 0 then StatOK else d.curr)
  {
    var r := ToInt32(d.repeat - 1);
    Display(if r == 0 then StatOK else d.curr, r)
  }

  /** The display after `n` rounds. */
  function Rounds(d: Display, n: nat): Display
    decreases n
  {
    if n == 0 then d else Rounds(Round(d), n - 1)
  }

  /** After Set(f, k) with 1 <= k, rounds 1..k show f and the state after
      round k is StatOK with counter 0: the code is shown exactly k times. */
  lemma {:induction false} SetShowsForRepeatRounds(f: int, k: int, n: nat)
    requires 1 <= k < 0x8000_0000 && n <= k
    ensures Rounds(Display(f, k), n) == if n < k then Display(f, k - n) else Display(StatOK, 0)
    decreases n
  {
    if n > 0 {
      SetShowsForRepeatRounds(f, k, n - 1);
      RoundsSplit(Display(f, k), n - 1);
    }
  }

  /** A round appended after `n` rounds. */
  lemma {:induction false} RoundsSplit(d: Display, n: nat)
    ensures Rounds(d, n + 1) == Round(Rounds(d, n))
    decreases n
  {
    if n > 0 {
      RoundsSplit(Round(d), n - 1);
    }
  }

  /** After Set(f, 0) the counter goes negative and keeps f on display for
      every round short of the int32 wrap-around (2^32 rounds). */
  lemma {:induction false} ZeroRepeatNeverReverts(f: int, n: nat)
    requires 1 <= n < 0x1_0000_0000
    ensures Rounds(Display(f, 0), n) == Display(f, ToInt32(-(n as int)))
    ensures ToInt32(-(n as int)) != 0
    decreases n
  {
    RoundsSplit(Display(f, 0), n - 1);
    if n > 1 {
      ZeroRepeatNeverReverts(f, n - 1);
    }
  }

  /** The process-wide status: current code and repeat counter, read by the
      display loop. */
  class Status {
    var curr: int
    var repeat: int

    ghost predicate Valid()
      reads this
    {
      -0x8000_0000 <= curr < 0x8000_0000 && -0x8000_0000 <= repeat < 0x8000_0000
    }

    /** The state as the display goroutine leaves it after start-up. */
    constructor ()
      ensures Valid() && curr == StatOK && repeat == 0
    {
      curr, repeat := StatOK, 0;
    }

    /** Get: the current code and repeat counter. */
    function Get(): (r: (int, int))
      reads this
      requires Valid()
      ensures -0x8000_0000 <= r.0 < 0x8000_0000 && -0x8000_0000 <= r.1 < 0x8000_0000
      ensures r == (curr, repeat)
    {
      (curr, repeat)
    }

    /** One round of the display loop: returns the blink pattern shown and
      advances the counter as Round says. */
    method Tick() returns (long: nat, short: nat)
      requires Valid()
      modifies this
      ensures Valid()
      ensures (long, short) == Blinks(old(curr))
      ensures Display(curr, repeat) == Round(old(Display(curr, repeat)))
    {
      long, short := BlinkCounts(curr);
      repeat := ToInt32(repeat - 1);
      if repeat == 0 {
        curr := StatOK;
      }
    }

    /** Trap, given whether a panic was recovered: a panic while the status
      is StatOK records StatEXCP, a normal exit while StatOK records StatUNK,
      and any other status is left as it is. */
    method Trap(panicked: bool)
      requires Valid()
      modifies this
      ensures Valid()
      ensures old(curr) == StatOK && panicked ==> curr == StatEXCP && repeat == 0
      ensures old(curr) == StatOK && !panicked ==> curr == StatUNK && repeat == 0
      ensures old(curr) != StatOK ==> curr == old(curr) && repeat == old(repeat)
    {
      var s := Get().0;
      if panicked {
        if s == StatOK {
          Set(this, StatEXCP, 0);
        }
      } else if s == StatOK {
        Set(this, StatUNK, 0);
      }
    }
  }

  /** Set on a possibly nil status: stores the int32 conversions of `flag`
      and `num`, and does nothing on nil. */
  method Set(state: Status?, flag: int, num: int)
    modifies state
    ensures state != null ==> state.Valid()
    ensures state != null ==> state.curr == ToInt32(flag) && state.repeat == ToInt32(num)
  {
    if state != null {
      state.curr := ToInt32(flag);
      state.repeat := ToInt32(num);
    }
  }

  /** The two loops of a display round: long blinks while more than five
      remain, then one short blink per unit left. */
  method BlinkCounts(num: int) returns (long: nat, short: nat)
    ensures (long, short) == Blinks(num)
    ensures num >= 1 ==> 5 * long + short == num && 1 <= short <= 5
    ensures num <= 0 ==> long == 0 && short == 0
  {
    var rest := num;
    long := 0;
    while rest > 5
      invariant rest == num - 5 * long
      invariant Blinks(num) == (Blinks(rest).0 + long, Blinks(rest).1)
      decreases rest
    {
      long := long + 1;
      rest := rest - 5;
    }
    short := 0;
    while short < rest
      invariant 0 <= short && (rest > 0 ==> short <= rest) && (rest <= 0 ==> short == 0)
    {
      short := short + 1;
    }
  }
}
