/** Address resolution on the device (ResolveHardwareAddr, NewResolver and
    Resolver.LookupNetIP in device_pico2w.go): bounded poll loops over the
    network stack's ARP and DNS clients. The clients are oracles: `done[k]`
    is what the k-th IsDone call reports, and the remaining parameters are
    what BeginResolve, ResultAs6, StartResolve and Answers return. */
module Resolve {
  import opened Base
  import opened Netip

  const ArpMaxRetries := 20
  const DnsRetries := 100
  /** RCODE 0, "no error condition" (section 4.1.1 of RFC 1035). */
  const RCodeSuccess := 0

  function Zero6(): (z: seq<Byte>)
    ensures |z| == 6 && forall i :: 0 <= i < 6 ==> z[i] == 0
  {
    [0, 0, 0, 0, 0, 0]
  }

  function Repeat<T>(x: T, n: nat): (r: seq<T>)
    ensures |r| == n && forall i :: 0 <= i < n ==> r[i] == x
  {
    if n == 0 then [] else [x] + Repeat(x, n - 1)
  }

  //--------------------------------------------------------------------
  // ARP

  datatype ArpError = InvalidIP | BeginFailed | ArpTimedOut | ResultFailed

  /** The calls made on the ARP client, in order. */
  datatype ArpCall = Abort | BeginResolve(ip: Addr) | IsDone | ResultAs6

  /** The hardware address and error ResolveHardwareAddr returns: the
      all-zero address with an error for an invalid IP, a refused request
      or a timeout; otherwise ResultAs6's answer. */
  function ArpSpec(ip: Addr, beginOk: bool, done: seq<bool>, resultHw: seq<Byte>, resultOk: bool)
    : (r: (seq<Byte>, Option<ArpError>))
    requires |done| >= ArpMaxRetries
    ensures r.1 == Some(InvalidIP) <==> !ip.IsValid()
    ensures r.1 == Some(ArpTimedOut) ==> forall k :: 0 <= k < ArpMaxRetries ==> !done[k]
    ensures r.1.Some? && r.1 != Some(ResultFailed) ==> r.0 == Zero6()
    ensures r.1 == None || r.1 == Some(ResultFailed) ==>
      ip.IsValid() && beginOk && r.0 == resultHw && exists k :: 0 <= k < ArpMaxRetries && done[k]
  {
    if !ip.IsValid() then (Zero6(), Some(InvalidIP))
    else if !beginOk then (Zero6(), Some(BeginFailed))
    else if FirstTrue(done, ArpMaxRetries) == ArpMaxRetries then (Zero6(), Some(ArpTimedOut))
    else (resultHw, if resultOk then None else Some(ResultFailed))
  }

  /** ResolveHardwareAddr. Besides the result, the ghost `calls` is the
      sequence of ARP client calls and `waits` the number of pauses between
      IsDone checks. */
  method ResolveHardwareAddr(ip: Addr, beginOk: bool, done: seq<bool>, resultHw: seq<Byte>, resultOk: bool)
    returns (hw: seq<Byte>, err: Option<ArpError>, ghost calls: seq<ArpCall>, ghost waits: nat)
    requires |done| >= ArpMaxRetries && |resultHw| == 6
    ensures (hw, err) == ArpSpec(ip, beginOk, done, resultHw, resultOk)
    ensures |hw| == 6
    ensures !ip.IsValid() ==> calls == [] && waits == 0
    ensures ip.IsValid() ==> |calls| >= 2 && calls[..2] == [Abort, BeginResolve(ip)]
    ensures ip.IsValid() && !beginOk ==> calls == [Abort, BeginResolve(ip)] && waits == 0
    ensures ip.IsValid() && beginOk ==>
      var j := FirstTrue(done, ArpMaxRetries);
      if j < ArpMaxRetries then
        calls == [Abort, BeginResolve(ip)] + Repeat(IsDone, j + 1) + [ResultAs6] && waits == j
      else
        calls == [Abort, BeginResolve(ip)] + Repeat(IsDone, ArpMaxRetries) && waits == ArpMaxRetries - 1
  {
    calls, waits := [], 0;
    if !ip.IsValid() {
      return Zero6(), Some(InvalidIP), calls, waits;
    }
    calls := [Abort, BeginResolve(ip)];
    if !beginOk {
      return Zero6(), Some(BeginFailed), calls, waits;
    }
    var retries := ArpMaxRetries;
    var k := 0;
    while true
      invariant 0 <= k < ArpMaxRetries && retries == ArpMaxRetries - k && waits == k
      invariant forall m :: 0 <= m < k ==> !done[m]
      invariant calls == [Abort, BeginResolve(ip)] + Repeat(IsDone, k)
      decreases retries
    {
      calls := calls + [IsDone];
      if done[k] {
        break;
      }
      retries := retries - 1;
      if retries == 0 {
        assert FirstTrue(done, ArpMaxRetries) == ArpMaxRetries;
        assert Repeat(IsDone, k) + [IsDone] == Repeat(IsDone, k + 1);
        return Zero6(), Some(ArpTimedOut), calls, waits;
      }
      waits := waits + 1;
      k := k + 1;
      assert Repeat(IsDone, k - 1) + [IsDone] == Repeat(IsDone, k);
    }
    assert FirstTrue(done, ArpMaxRetries) == k;
    assert Repeat(IsDone, k) + [IsDone] == Repeat(IsDone, k + 1);
    calls := calls + [ResultAs6];
    hw := resultHw;
    err := if resultOk then None else Some(ResultFailed);
  }

  //--------------------------------------------------------------------
  // Choosing the DNS server

  datatype ResolverError = DnsAddrNotValid

  /** NewResolver as written: it rejects an invalid first server, and
      otherwise indexes the first entry even when DHCP reported none. */
  function DnsServerAsWritten(servers: seq<Addr>): (r: Outcome<Addr, ResolverError>)
    ensures r.Panic? <==> servers == []
    ensures r.Fail? <==> servers != [] && !servers[0].IsValid()
  {
    if |servers| > 0 && !servers[0].IsValid() then Fail(DnsAddrNotValid)
    else if |servers| == 0 then Panic
    else Ok(servers[0])
  }

  /** The server choice NewResolver evidently intends, as SetupWithDHCP
      reads the same list: the first server, or the zero address when
      there is none. */
  function DnsServer(servers: seq<Addr>): (r: Outcome<Addr, ResolverError>)
    ensures r != Panic
    ensures r.Ok? ==> r.value == (if servers == [] then NoAddr else servers[0])
    ensures r.Fail? <==> servers != [] && !servers[0].IsValid()
  {
    if |servers| > 0 && !servers[0].IsValid() then Fail(DnsAddrNotValid)
    else if |servers| > 0 then Ok(servers[0])
    else Ok(NoAddr)
  }

  /** The two choices differ exactly on an empty list: the written one
      panics, the corrected one keeps the zero address, so every later
      lookup fails at the ARP step with InvalidIP. */
  lemma DnsServerCorrects(servers: seq<Addr>)
    ensures servers != [] ==> DnsServerAsWritten(servers) == DnsServer(servers)
    ensures DnsServerAsWritten([]) == Panic
    ensures DnsServer([]) == Ok(NoAddr)
    ensures forall beginOk, done: seq<bool>, hw, ok | |done| >= ArpMaxRetries ::
      ArpSpec(DnsServer([]).value, beginOk, done, hw, ok).1 == Some(InvalidIP)
  {
  }

  //--------------------------------------------------------------------
  // DNS

  /** The IPv4 addresses among the answers: every record whose data is
      exactly four bytes, in answer order. */
  function IPv4Answers(answers: seq<seq<Byte>>): (r: seq<Addr>)
    ensures |r| <= |answers|
    ensures forall a :: a in r ==> a.IsValid() && |a.octets| == 4
  {
    if answers == [] then []
    else
      var rest := IPv4Answers(answers[1..]);
      if |answers[0]| == 4 then [AddrFrom4(answers[0])] + rest else rest
  }

  lemma {:induction false} IPv4AnswersAppend(a: seq<seq<Byte>>, b: seq<seq<Byte>>)
    ensures IPv4Answers(a + b) == IPv4Answers(a) + IPv4Answers(b)
    decreases |a|
  {
    if a != [] {
      assert (a + b)[1..] == a[1..] + b;
      IPv4AnswersAppend(a[1..], b);
    } else {
      assert a + b == b;
    }
  }

  /** An address is kept exactly when some answer carries its four
      bytes. */
  lemma {:induction false} IPv4AnswersMembers(answers: seq<seq<Byte>>, x: Addr)
    ensures x in IPv4Answers(answers) <==> x.IP? && x.octets in answers && |x.octets| == 4
    decreases |answers|
  {
    if answers != [] {
      IPv4AnswersMembers(answers[1..], x);
      assert answers == [answers[0]] + answers[1..];
    }
  }

  /** The append loop of LookupNetIP. */
  method CollectIPv4(answers: seq<seq<Byte>>) returns (addrs: seq<Addr>)
    ensures addrs == IPv4Answers(answers)
  {
    addrs := [];
    for i := 0 to |answers|
      invariant addrs == IPv4Answers(answers[..i])
    {
      IPv4AnswersAppend(answers[..i], [answers[i]]);
      assert answers[..i + 1] == answers[..i] + [answers[i]];
      if |answers[i]| == 4 {
        addrs := addrs + [AddrFrom4(answers[i])];
      }
    }
    assert answers[..|answers|] == answers;
  }

  /** Which IsDone result LookupNetIP acts on: the one after the loop,
      i.e. the check after the first "done", or the 101st check when none
      of the first hundred was done. */
  function FinalCheck(done: seq<bool>): (k: nat)
    requires |done| > DnsRetries
    ensures k <= DnsRetries
  {
    var j := FirstTrue(done, DnsRetries);
    if j < DnsRetries then j + 1 else DnsRetries
  }

  /** The DNS poll loop: up to a hundred IsDone checks with a pause after
      each negative one, then one more check. Returns whether the lookup
      timed out and the RCODE the last check reported. */
  method PollDNS(done: seq<bool>, rcodes: seq<nat>)
    returns (timedOut: bool, rcode: nat, ghost checks: nat, ghost waits: nat)
    requires |done| > DnsRetries && |rcodes| == |done|
    ensures waits == FirstTrue(done, DnsRetries)
    ensures checks == FinalCheck(done) + 1
    ensures timedOut <==> waits == DnsRetries && !done[DnsRetries]
    ensures rcode == rcodes[FinalCheck(done)]
  {
    var retries := DnsRetries;
    var k := 0;
    waits := 0;
    while retries > 0
      invariant 0 <= retries <= DnsRetries && k == DnsRetries - retries && waits == k
      invariant forall m :: 0 <= m < k ==> !done[m]
    {
      var d := done[k];
      k := k + 1;
      if d {
        break;
      }
      retries := retries - 1;
      waits := waits + 1;
    }
    assert FirstTrue(done, DnsRetries) == waits;
    var d := done[k];
    rcode := rcodes[k];
    checks := k + 1;
    timedOut := !d && retries == 0;
  }

  datatype LookupError =
    | BadName
    | Arp(e: ArpError)
    | StartFailed
    | TimedOut
    | Failed(rcode: nat)
    | NoAnswers
    | NoIPv4Answers

  /** What LookupNetIP returns, stage by stage. */
  function LookupSpec(nameOk: bool, arp: Option<ArpError>, startOk: bool,
                      done: seq<bool>, rcodes: seq<nat>, answers: seq<seq<Byte>>)
    : (r: Outcome<seq<Addr>, LookupError>)
    requires |done| > DnsRetries && |rcodes| == |done|
    ensures r.Ok? ==> r.value == IPv4Answers(answers) && r.value != []
  {
    if !nameOk then Fail(BadName)
    else if arp.Some? then Fail(Arp(arp.value))
    else if !startOk then Fail(StartFailed)
    else if FirstTrue(done, DnsRetries) == DnsRetries && !done[DnsRetries] then Fail(TimedOut)
    else if rcodes[FinalCheck(done)] != RCodeSuccess then Fail(Failed(rcodes[FinalCheck(done)]))
    else if answers == [] then Fail(NoAnswers)
    else if IPv4Answers(answers) == [] then Fail(NoIPv4Answers)
    else Ok(IPv4Answers(answers))
  }

  /** A lookup times out only when none of the first hundred checks and
      not the final one found the query done, and it succeeds only with a
      success RCODE and at least one four-byte answer. */
  lemma LookupOutcomes(nameOk: bool, arp: Option<ArpError>, startOk: bool,
                       done: seq<bool>, rcodes: seq<nat>, answers: seq<seq<Byte>>)
    requires |done| > DnsRetries && |rcodes| == |done|
    ensures var r := LookupSpec(nameOk, arp, startOk, done, rcodes, answers);
      && (r == Fail(TimedOut) ==> forall k :: 0 <= k <= DnsRetries ==> !done[k])
      && (r.Ok? ==> nameOk && arp.None? && startOk && rcodes[FinalCheck(done)] == RCodeSuccess
                         && exists d :: d in answers && |d| == 4)
  {
    var r := LookupSpec(nameOk, arp, startOk, done, rcodes, answers);
    if r.Ok? {
      var a := r.value[0];
      IPv4AnswersMembers(answers, a);
    }
  }

  /** A resolver: the DNS server chosen at construction and the hardware
      address last resolved for it. */
  class Resolver {
    const dnsaddr: Addr
    var dnshwaddr: seq<Byte>

    constructor (dnsaddr: Addr)
      ensures this.dnsaddr == dnsaddr && dnshwaddr == Zero6()
    {
      this.dnsaddr := dnsaddr;
      dnshwaddr := Zero6();
    }

    /** LookupNetIP. `nameOk` is whether dns.NewName accepts the host; the
      ARP oracles are as for ResolveHardwareAddr; `startOk` whether
      StartResolve accepts the query; `done`/`rcodes` the IsDone results;
      `answers` the record data of the answers. */
    method LookupNetIP(nameOk: bool, arpBeginOk: bool, arpDone: seq<bool>, arpHw: seq<Byte>, arpOk: bool,
                       startOk: bool, done: seq<bool>, rcodes: seq<nat>, answers: seq<seq<Byte>>)
      returns (r: Outcome<seq<Addr>, LookupError>)
      requires |arpDone| >= ArpMaxRetries && |arpHw| == 6
      requires |done| > DnsRetries && |rcodes| == |done|
      modifies this`dnshwaddr
      ensures var arp := ArpSpec(dnsaddr, arpBeginOk, arpDone, arpHw, arpOk);
        && r == LookupSpec(nameOk, arp.1, startOk, done, rcodes, answers)
        && dnshwaddr == (if nameOk then arp.0 else old(dnshwaddr))
    {
      if !nameOk {
        return Fail(BadName);
      }
      var hw, err, calls, arpWaits := ResolveHardwareAddr(dnsaddr, arpBeginOk, arpDone, arpHw, arpOk);
      dnshwaddr := hw;
      if err.Some? {
        return Fail(Arp(err.value));
      }
      if !startOk {
        return Fail(StartFailed);
      }
      var timedOut, rcode, checks, waits := PollDNS(done, rcodes);
      if timedOut {
        return Fail(TimedOut);
      } else if rcode != RCodeSuccess {
        return Fail(Failed(rcode));
      }
      if |answers| == 0 {
        return Fail(NoAnswers);
      }
      var addrs := CollectIPv4(answers);
      if |addrs| == 0 {
        return Fail(NoIPv4Answers);
      }
      return Ok(addrs);
    }
  }

  /** NewResolver with the corrected server choice. */
  method NewResolver(servers: seq<Addr>) returns (r: Outcome<Resolver, ResolverError>)
    ensures DnsServer(servers).Fail? <==> r.Fail?
    ensures r.Ok? ==> fresh(r.value) && r.value.dnsaddr == DnsServer(servers).value
                           && r.value.dnshwaddr == Zero6()
  {
    var server := DnsServer(servers);
    if server.Fail? {
      return Fail(server.err);
    }
    var res := new Resolver(server.value);
    return Ok(res);
  }
}
