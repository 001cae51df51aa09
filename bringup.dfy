/** Network bring-up on the Pico 2 W (SetupWithDHCP and SetupListener in
    device_pico2w.go): parse the requested address, initialise the radio,
    join the access point in at most five attempts, start the packet pump,
    run DHCP for at most sixteen half-second waits and fall back to the
    requested static address. The radio driver, the address parser and the
    DHCP client are oracles: `parse` is netip.ParseAddr (None for an
    error), `joins[k]` whether the k-th JoinWPA2 succeeds, `bound[k]`
    whether the k-th look at the DHCP state finds it Bound. */
module Bringup {
  import opened Base
  import opened Netip
  import St = Status

  const JoinAttempts := 5
  const DhcpWaits := 16

  /** The address the device asks DHCP for: the zero address when none is
      configured, None when the configured text does not parse. */
  function RequestedAddr(requestedIP: string, parse: string -> Option<Addr>): (r: Option<Addr>)
    ensures requestedIP == "" ==> r == Some(NoAddr)
    ensures requestedIP != "" ==> r == parse(requestedIP)
  {
    if requestedIP == "" then Some(NoAddr) else parse(requestedIP)
  }

  /** The status code SetupWithDHCP reports. The stage at which bring-up
      stops decides it: each failing stage has its own code, and StatOK
      means an address was obtained from DHCP or, after the sixteenth wait,
      a valid static one was used. */
  function SetupStatus(requestedIP: string, parse: string -> Option<Addr>, initOk: bool,
                       joins: seq<bool>, beginOk: bool, bound: seq<bool>): (s: int)
    requires |joins| >= JoinAttempts && |bound| >= DhcpWaits
    ensures s == St.StatIP <==> requestedIP != "" && parse(requestedIP).None?
    ensures s == St.StatWIFI <==> s != St.StatIP && !initOk
    ensures s == St.StatWPA2 <==> s != St.StatIP && initOk && forall k :: 0 <= k < JoinAttempts ==> !joins[k]
    ensures s == St.StatDHCP1 <==>
      s !in {St.StatIP, St.StatWIFI, St.StatWPA2} && !beginOk
    ensures s == St.StatDHCP2 <==>
      && s !in {St.StatIP, St.StatWIFI, St.StatWPA2, St.StatDHCP1}
      && (forall k :: 0 <= k < DhcpWaits ==> !bound[k])
      && !RequestedAddr(requestedIP, parse).value.IsValid()
    ensures s in {St.StatIP, St.StatWIFI, St.StatWPA2, St.StatDHCP1, St.StatDHCP2, St.StatOK}
  {
    var req := RequestedAddr(requestedIP, parse);
    if req.None? then St.StatIP
    else if !initOk then St.StatWIFI
    else if FirstTrue(joins, JoinAttempts) == JoinAttempts then St.StatWPA2
    else if !beginOk then St.StatDHCP1
    else if FirstTrue(bound, DhcpWaits) < DhcpWaits then St.StatOK
    else if req.value.IsValid() then St.StatOK
    else St.StatDHCP2
  }

  /** SetupWithDHCP. Returns the status, whether the network stack was
      created (the Go function returns a nil stack before that), and the
      address handed to the stack's SetAddr, if any. The ghost results
      count the calls into the radio and the waits. */
  method SetupWithDHCP(requestedIP: string, parse: string -> Option<Addr>, initOk: bool,
                       joins: seq<bool>, beginOk: bool, bound: seq<bool>, offer: Addr)
    returns (status: int, stackMade: bool, addrSet: Option<Addr>,
             ghost initCalled: bool, ghost joinCalls: nat, ghost joinWaits: nat, ghost dhcpWaits: nat)
    requires |joins| >= JoinAttempts && |bound| >= DhcpWaits
    ensures status == SetupStatus(requestedIP, parse, initOk, joins, beginOk, bound)
    ensures initCalled <==> RequestedAddr(requestedIP, parse).Some?
    ensures !(initCalled && initOk) ==> joinCalls == 0 && joinWaits == 0
    ensures initCalled && initOk ==>
      var k := FirstTrue(joins, JoinAttempts);
      && joinCalls == (if k < JoinAttempts then k + 1 else JoinAttempts)
      && joinWaits == k
    ensures stackMade <==> status !in {St.StatIP, St.StatWIFI, St.StatWPA2}
    ensures dhcpWaits > 0 ==> stackMade && beginOk
    ensures stackMade && beginOk ==>
      var j := FirstTrue(bound, DhcpWaits);
      && dhcpWaits == j
      && addrSet == (if j < DhcpWaits then Some(offer)
                     else if RequestedAddr(requestedIP, parse).value.IsValid()
                     then RequestedAddr(requestedIP, parse) else None)
    ensures addrSet.Some? <==> status == St.StatOK
  {
    initCalled, joinCalls, joinWaits, dhcpWaits := false, 0, 0, 0;
    stackMade, addrSet := false, None;
    var reqAddr := NoAddr;
    if requestedIP != "" {
      var parsed := parse(requestedIP);
      if parsed.None? {
        return St.StatIP, stackMade, addrSet, initCalled, joinCalls, joinWaits, dhcpWaits;
      }
      reqAddr := parsed.value;
    }

    initCalled := true;
    if !initOk {
      return St.StatWIFI, stackMade, addrSet, initCalled, joinCalls, joinWaits, dhcpWaits;
    }
    var joinFailed := true;
    var n := 0;
    while n < JoinAttempts
      invariant 0 <= n <= JoinAttempts
      invariant joinFailed && joinCalls == n && joinWaits == n
      invariant forall m :: 0 <= m < n ==> !joins[m]
    {
      joinCalls := joinCalls + 1;
      joinFailed := !joins[n];
      if !joinFailed {
        break;
      }
      joinWaits := joinWaits + 1;
      n := n + 1;
    }
    if joinFailed {
      assert FirstTrue(joins, JoinAttempts) == JoinAttempts;
      return St.StatWPA2, stackMade, addrSet, initCalled, joinCalls, joinWaits, dhcpWaits;
    }
    assert FirstTrue(joins, JoinAttempts) == n;

    stackMade := true;
    if !beginOk {
      return St.StatDHCP1, stackMade, addrSet, initCalled, joinCalls, joinWaits, dhcpWaits;
    }
    var i := 0;
    while !bound[i]
      invariant 0 <= i < DhcpWaits && dhcpWaits == i
      invariant forall m :: 0 <= m < i ==> !bound[m]
      decreases DhcpWaits - i
    {
      i := i + 1;
      dhcpWaits := dhcpWaits + 1;
      if i > 15 {
        assert FirstTrue(bound, DhcpWaits) == DhcpWaits;
        if !reqAddr.IsValid() {
          return St.StatDHCP2, stackMade, addrSet, initCalled, joinCalls, joinWaits, dhcpWaits;
        }
        addrSet := Some(reqAddr);
        return St.StatOK, stackMade, addrSet, initCalled, joinCalls, joinWaits, dhcpWaits;
      }
    }
    assert FirstTrue(bound, DhcpWaits) == i;
    addrSet := Some(offer);
    status := St.StatOK;
  }

  /** SetupListener: the status it reports, and whether it returns a
      listener. `isPico` is whether the device is a Pico 2 W; `listenerOk`
      whether the TCP listener can be created and `startOk` whether it
      starts listening on the port. */
  method SetupListener(isPico: bool, requestedIP: string, parse: string -> Option<Addr>, initOk: bool,
                       joins: seq<bool>, beginOk: bool, bound: seq<bool>, offer: Addr,
                       listenerOk: bool, startOk: bool)
    returns (listener: bool, state: int)
    requires |joins| >= JoinAttempts && |bound| >= DhcpWaits
    ensures var s := SetupStatus(requestedIP, parse, initOk, joins, beginOk, bound);
      && (!isPico ==> state == St.StatDEV && !listener)
      && (isPico && s != St.StatOK ==> state == s && !listener)
      && (isPico && s == St.StatOK && !listenerOk ==> state == St.StatLISTEN1 && !listener)
      && (isPico && s == St.StatOK && listenerOk ==>
            listener && state == (if startOk then St.StatOK else St.StatLISTEN2))
  {
    listener := false;
    if !isPico {
      state := St.StatDEV;
      return;
    }
    var stack, addr;
    ghost var inited, joined, joinWaits, dhcpWaits;
    state, stack, addr, inited, joined, joinWaits, dhcpWaits := SetupWithDHCP(requestedIP, parse, initOk, joins, beginOk, bound, offer);
    if state != St.StatOK {
      return;
    }
    if !listenerOk {
      state := St.StatLISTEN1;
      return;
    }
    listener := true;
    if !startOk {
      state := St.StatLISTEN2;
    }
  }
}
