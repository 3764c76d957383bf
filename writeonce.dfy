/** The write-once address space: the global log over the units of the
    current view. A write goes to every unit of the routed chain, head to
    tail; a read asks the tail. A NetworkException anywhere makes the
    operation invalidate the view and retry; after a failed write it first
    checks whether the write took effect by reading the address back. */
module WriteOnceAddressSpace {
  import opened Base
  import opened LogUnits
  import opened Views
  import opened Cluster

  /** `read(address)`: the tail read under the view in use, retried under a
      new view after a NetworkException. */
  method Read(e0: Env, address: Int64) returns (e: Env, r: Result<Bytes, OpError>)
    requires Valid(e0)
    ensures Valid(e) && e.units == e0.units && e.views == e0.views && e0.current <= e.current
    ensures r != Failure(Blocked) ==> r == TailRead(e, address)
    ensures r == Failure(Blocked) ==> e.current == |e.views| - 1
    ensures Reliable(e0.links) ==> e.current == e0.current && r == TailRead(e0, address) && Reliable(e.links)
    ensures Reliable(e0.links) ==>
              e.links == if Locate(CurrentView(e0), address).Success? then RestLinks(e0.links) else e0.links
  {
    e := e0;
    while true
      invariant Valid(e) && e.units == e0.units && e.views == e0.views && e0.current <= e.current
      invariant Reliable(e0.links) ==> e == e0
      decreases |e.views| - e.current
    {
      var v := CurrentView(e);
      var loc := Locate(v, address);
      if loc.Failure? {
        return e, Failure(BadRoute(loc.error));
      }
      var tail := TailOf(v, e.units.Keys, address);
      if Reliable(e.links) {
        ReliableRest(e.links);
      }
      var sent := SendRead(e, tail, loc.value.mapped);
      if sent.1.Success? {
        return sent.0, Success(sent.1.value);
      }
      if sent.1.error != Network {
        return sent.0, Failure(UnitError(sent.1.error));
      }
      var next := InvalidateViewAndWait(sent.0);
      if next.None? {
        return sent.0, Failure(Blocked);
      }
      e := next.value;
    }
  }

  /** The first `k` requests of a write to a current chain of distinct free
      units have been delivered and accepted, and every request before the
      tail's is delivered. */
  ghost predicate FreeRun(e0: Env, e: Env, address: Int64, chain: Chain, m: int, k: nat)
    requires Valid(e)
  {
    && |chain| > 0 && e.links == Drop(e0.links, k) && DeliveredBefore(e0.links, |chain| - 1) && ChainCurrent(e, address)
    && (forall i, j :: 0 <= i < j < |chain| ==> chain[i] != chain[j])
    && (forall j :: k <= j < |chain| ==> chain[j] in e.units && m !in e.units[chain[j]].cells)
    && (0 < k == |chain| ==> NextLink(Drop(e0.links, k - 1)) == Delivered)
  }

  /** What holds after the first `k` units of `chain`, the chain `address`
      routes to in `v` at mapped address `m`, have taken the write. */
  ghost predicate ChainInv(e0: Env, e: Env, address: Int64, data: Bytes, v: View, chain: Chain, m: int, k: nat,
                           clean: bool, free: bool)
  {
    && Valid(e0) && Valid(e) && e.views == e0.views && e.current == e0.current && e.units.Keys == e0.units.Keys
    && CurrentView(e) == v && Locate(v, address).Success? && Locate(v, address).value.mapped == m
    && chain == ChainOf(v, Locate(v, address).value.group) && k <= |chain|
    && (forall j :: 0 <= j < |chain| ==> chain[j] in e.units)
    && Confined(e0.units, e.units, data, address, e.views, e0.current, e.current, false)
    && (forall j :: 0 <= j < k ==> Holds(e.units, chain[j], m, data))
    && (0 < k ==> HeadFree(e0, address))
    && UnchangedOutside(e0.units, e.units, chain[..k])
    && (Reliable(e0.links) ==> Reliable(e.links))
    && (clean ==> Reliable(e.links) && ChainCurrent(e, address))
    && (free ==> FreeRun(e0, e, address, chain, m, k))
  }

  /** Writing unit `k` of the chain: success extends the invariant to `k + 1`,
      OVERWRITE or TRIMMED is a refusal at `k` that leaves the units after it
      alone, and over a reliable transport to a current chain there is no
      NetworkException. On a free run only the tail's request can fail, and
      then only with a NetworkException. */
  lemma {:induction false} ChainStep(e0: Env, e: Env, address: Int64, data: Bytes, v: View, chain: Chain, m: int, k: nat,
                                     clean: bool, free: bool)
    requires ChainInv(e0, e, address, data, v, chain, m, k, clean, free) && k < |chain|
    ensures var s := SendWrite(e, chain[k], m, data);
      && Valid(s.0) && s.0.views == e0.views && s.0.current == e0.current
      && Confined(e0.units, s.0.units, data, address, s.0.views, e0.current, s.0.current, false)
      && (Reliable(e0.links) ==> Reliable(s.0.links))
      && (s.1 == None ==> ChainInv(e0, s.0, address, data, v, chain, m, k + 1, clean, free))
      && (s.1.Some? && s.1.value != Network ==>
            && (s.1.value.Overwrite? || s.1.value.Trimmed?) && RefusedAt(s.0, address, data, k, s.1.value)
            && UnchangedOutside(e0.units, s.0.units, chain[..k]))
      && (clean ==> s.1 != Some(Network))
  {
    SendStep(e0, e, address, data, v, chain, m, k, clean, free);
    if SendWrite(e, chain[k], m, data).1 == None {
      ChainNext(e0, e, address, data, v, chain, m, k, clean, free);
    }
  }

  /** What one request of the chain loop does to the units and the transport,
      whatever the unit answers. */
  lemma {:induction false} SendStep(e0: Env, e: Env, address: Int64, data: Bytes, v: View, chain: Chain, m: int, k: nat,
                                    clean: bool, free: bool)
    requires ChainInv(e0, e, address, data, v, chain, m, k, clean, free) && k < |chain|
    ensures var s := SendWrite(e, chain[k], m, data);
      && Valid(s.0) && s.0.views == e0.views && s.0.current == e0.current && s.0.units.Keys == e0.units.Keys
      && (forall j :: 0 <= j < |chain| ==> chain[j] in s.0.units)
      && Confined(e0.units, s.0.units, data, address, s.0.views, e0.current, s.0.current, false)
      && (Reliable(e0.links) ==> Reliable(s.0.links))
      && (clean ==> s.1 != Some(Network) && Reliable(s.0.links) && ChainCurrent(s.0, address))
      && (s.1 == None ==>
            && (forall j :: 0 <= j <= k ==> Holds(s.0.units, chain[j], m, data))
            && UnchangedOutside(e0.units, s.0.units, chain[..k + 1]))
      && (s.1.Some? && s.1.value != Network ==>
            s.0.units == e.units && Refuses(e.units[chain[k]], v.epoch, m, s.1.value))
  {
    ConfinedSendWrite(e0, e, chain[k], m, data, address, false);
    SendWriteKeepsHolds(e, chain[k], m, data);
    var s := SendWrite(e, chain[k], m, data);
    if Reliable(e0.links) {
      ReliableRest(e.links);
    }
    if clean {
      ChainSendReliable(e, address, chain, m, k, data);
    }
    UnchangedOutsideStep(e0.units, e.units, s.0.units, chain, k);
  }

  /** The head takes the write only if it had the mapped address free when
      the write began. */
  lemma {:induction false} HeadTakesFirst(e0: Env, e: Env, address: Int64, data: Bytes, v: View, chain: Chain, m: int,
                                          clean: bool, free: bool)
    requires ChainInv(e0, e, address, data, v, chain, m, 0, clean, free)
    requires SendWrite(e, chain[0], m, data).1 == None
    ensures HeadFree(e0, address)
  {
    assert chain[0] !in chain[..0];
    assert e.units[chain[0]] == e0.units[chain[0]];
  }

  /** Writing unit `k` on a free run: before the tail every request is
      delivered and accepted; the tail's fails only with a NetworkException,
      exactly when it is not delivered; unless the request is lost, the unit
      takes the write. */
  lemma {:induction false} FreeStep(e0: Env, e: Env, address: Int64, data: Bytes, v: View, chain: Chain, m: int, k: nat,
                                    clean: bool)
    requires ChainInv(e0, e, address, data, v, chain, m, k, clean, false) && FreeRun(e0, e, address, chain, m, k)
    requires k < |chain|
    ensures var s := SendWrite(e, chain[k], m, data);
      && s.0.links == Drop(e0.links, k + 1)
      && (s.1 == None <==> NextLink(e.links) == Delivered)
      && (s.1.Some? ==> k == |chain| - 1 && s.1 == Some(Network))
      && (NextLink(e.links) != RequestLost ==> forall j :: 0 <= j <= k ==> Holds(s.0.units, chain[j], m, data))
      && (s.1 == None ==> FreeRun(e0, s.0, address, chain, m, k + 1))
  {
    SendWriteKeepsHolds(e, chain[k], m, data);
    var s := SendWrite(e, chain[k], m, data);
    SendWriteKeepsCurrent(e, address, chain[k], m, data);
    if k < |chain| - 1 && k < |e0.links| {
      assert NextLink(e.links) == e0.links[k];
    }
    forall j | k + 1 <= j < |chain| ensures chain[j] in s.0.units && m !in s.0.units[chain[j]].cells {
      assert chain[j] != chain[k];
    }
  }

  /** The chain `address` routes to is current, its units are distinct and
      free, and every request but perhaps the tail's is delivered. */
  ghost predicate FreeChain(e: Env, address: Int64)
    requires Valid(e)
  {
    && ChainCurrent(e, address) && ChainFree(e, address)
    && DeliveredBefore(e.links, |RoutedChain(e, address)| - 1)
  }

  /** How a chain write from `e0` to a free chain ends in `e` with `f`: it
      sent one request per unit; only the tail's request can fail, and only
      with a NetworkException, exactly when it was not delivered; unless
      that request was lost, every unit holds `data`. */
  ghost predicate FreeChainWritten(e0: Env, e: Env, address: Int64, data: Bytes, f: Option<UnitFailure>)
    requires Valid(e0) && Valid(e) && Locate(CurrentView(e0), address).Success?
  {
    var n := |RoutedChain(e0, address)|;
    && e.links == Drop(e0.links, n)
    && (f == None <==> NextLink(Drop(e0.links, n - 1)) == Delivered)
    && (f.Some? ==> f == Some(Network))
    && (NextLink(Drop(e0.links, n - 1)) != RequestLost ==> ChainHolds(e, address, data))
  }

  /** The chain write from `e0` stopped at the unit of the routed chain that
      refused with `f`: those before it hold `data`, and no unit after it was
      touched. */
  ghost predicate StoppedAt(e0: Env, e: Env, address: Int64, data: Bytes, f: UnitFailure)
    requires Valid(e0) && Valid(e) && Locate(CurrentView(e0), address).Success?
  {
    exists k: nat :: RefusedAt(e, address, data, k, f) && k <= |RoutedChain(e0, address)| &&
                     UnchangedOutside(e0.units, e.units, RoutedChain(e0, address)[..k])
  }

  /** A unit that takes the write carries the invariant to the next unit. */
  lemma {:induction false} ChainNext(e0: Env, e: Env, address: Int64, data: Bytes, v: View, chain: Chain, m: int, k: nat,
                                     clean: bool, free: bool)
    requires ChainInv(e0, e, address, data, v, chain, m, k, clean, free) && k < |chain|
    requires SendWrite(e, chain[k], m, data).1 == None
    ensures ChainInv(e0, SendWrite(e, chain[k], m, data).0, address, data, v, chain, m, k + 1, clean, free)
  {
    SendStep(e0, e, address, data, v, chain, m, k, clean, free);
    if k == 0 {
      HeadTakesFirst(e0, e, address, data, v, chain, m, clean, free);
    }
    if free {
      FreeStep(e0, e, address, data, v, chain, m, k, clean);
    }
  }

  /** Before the first request, the invariant holds of the routed chain. */
  lemma {:induction false} ChainStart(e0: Env, address: Int64, data: Bytes)
    requires Valid(e0) && Locate(CurrentView(e0), address).Success?
    ensures var v := CurrentView(e0);
      var rt := Locate(v, address).value;
      ChainInv(e0, e0, address, data, v, RoutedChain(e0, address), rt.mapped, 0,
               Reliable(e0.links) && ChainCurrent(e0, address), FreeChain(e0, address))
  {
    ConfinedStart(e0.units, data, address, e0.views, e0.current, false);
    assert Drop(e0.links, 0) == e0.links;
  }

  /** How a chain write ends when unit `k` raises, or when every unit has
      taken the write (`k == |chain|`). */
  lemma {:induction false} ChainEnds(e0: Env, e: Env, address: Int64, data: Bytes, v: View, chain: Chain, m: int, k: nat,
                                     clean: bool, free: bool, e': Env, f: Option<UnitFailure>)
    requires ChainInv(e0, e, address, data, v, chain, m, k, clean, free)
    requires k < |chain| ==> SendWrite(e, chain[k], m, data) == (e', f) && f.Some?
    requires k == |chain| ==> e' == e && f == None
    ensures && Valid(e') && e'.views == e0.views && e'.current == e0.current
      && Confined(e0.units, e'.units, data, address, e'.views, e0.current, e'.current, false)
      && (Reliable(e0.links) ==> Reliable(e'.links))
      && (f == None ==> ChainHolds(e', address, data))
      && (f == None ==> HeadFree(e0, address))
      && (f.Some? && f.value != Network ==>
            (f.value.Overwrite? || f.value.Trimmed?) && StoppedAt(e0, e', address, data, f.value))
      && (f == Some(Network) ==> !clean)
      && (free ==> FreeChainWritten(e0, e', address, data, f))
  {
    assert chain == RoutedChain(e0, address);
    if k < |chain| {
      ChainStep(e0, e, address, data, v, chain, m, k, clean, free);
      if free {
        FreeStep(e0, e, address, data, v, chain, m, k, clean);
      }
      if f.value != Network {
        assert RefusedAt(e', address, data, k, f.value) && UnchangedOutside(e0.units, e'.units, chain[..k]);
      }
    }
  }

  /** The body of `write`'s retry loop: the write of `data` to every unit of
      the chain `address` routes to, head to tail, stopping at the first
      unit that raises. */
  method WriteChain(e0: Env, address: Int64, data: Bytes) returns (e: Env, f: Option<UnitFailure>)
    requires Valid(e0) && Locate(CurrentView(e0), address).Success?
    ensures Valid(e) && e.views == e0.views && e.current == e0.current
    ensures Confined(e0.units, e.units, data, address, e.views, e0.current, e.current, false)
    ensures Reliable(e0.links) ==> Reliable(e.links)
    ensures f == None ==> ChainHolds(e, address, data)
    ensures f == None ==> HeadFree(e0, address)
    ensures f.Some? && f.value != Network ==>
              (f.value.Overwrite? || f.value.Trimmed?) && StoppedAt(e0, e, address, data, f.value)
    ensures f == Some(Network) ==> !Reliable(e0.links) || !ChainCurrent(e0, address)
    ensures FreeChain(e0, address) ==> FreeChainWritten(e0, e, address, data, f)
  {
    var v := CurrentView(e0);
    var g, m := Locate(v, address).value.group, Locate(v, address).value.mapped;
    var chain := ChainOf(v, g);
    ChainMembers(v, e0.units.Keys, g);
    assert chain == RoutedChain(e0, address);
    e := e0;
    ChainStart(e0, address, data);
    ghost var clean := Reliable(e0.links) && ChainCurrent(e0, address);
    ghost var free := FreeChain(e0, address);
    var k := 0;
    while k < |chain|
      invariant ChainInv(e0, e, address, data, v, chain, m, k, clean, free)
    {
      var sent := SendWrite(e, chain[k], m, data);
      if sent.1.Some? {
        ChainEnds(e0, e, address, data, v, chain, m, k, clean, free, sent.0, sent.1);
        return sent.0, sent.1;
      }
      ChainNext(e0, e, address, data, v, chain, m, k, clean, free);
      e := sent.0;
      k := k + 1;
    }
    ChainEnds(e0, e, address, data, v, chain, m, k, clean, free, e, None);
    return e, None;
  }

  /** The view-change retry: to a free chain, every request reaches its
      unit, the reply to the tail's write is lost, the transport is reliable
      from then on, and the next view keeps segment 0. */
  ghost predicate LostTailReply(e: Env, address: Int64)
    requires Valid(e)
  {
    && FreeChain(e, address)
    && var n := |RoutedChain(e, address)|;
       && n <= |e.links| && e.links[n - 1] == ReplyLost && Reliable(e.links[n..])
       && e.current + 1 < |e.views| && e.views[e.current + 1].segments[0] == CurrentView(e).segments[0]
  }

  /** In the view-change retry the chain write ends in a NetworkException
      with every unit holding `data`, and under the next view the transport
      is reliable and the address reads back as `data`. */
  lemma {:induction false} LostReplyRetry(e0: Env, e1: Env, f: Option<UnitFailure>, address: Int64, data: Bytes)
    requires Valid(e0) && LostTailReply(e0, address)
    requires Valid(e1) && e1.views == e0.views && e1.current == e0.current
    requires FreeChainWritten(e0, e1, address, data, f)
    ensures f == Some(Network) && e1.current + 1 < |e1.views|
    ensures var e2 := e1.(current := e1.current + 1);
      && Valid(e2) && Reliable(e2.links) && TailRead(e2, address) == Success(data)
      && Locate(CurrentView(e2), address).Success?
      && RestLinks(e2.links) == Drop(e0.links, |RoutedChain(e0, address)| + 1)
  {
    var n := |RoutedChain(e0, address)|;
    assert NextLink(Drop(e0.links, n - 1)) == ReplyLost;
    LocateUsesSegmentZero(CurrentView(e1), e1.views[e1.current + 1], address);
    ChainHoldsNextView(e1, address, data);
    ReadAfterChainHolds(e1.(current := e1.current + 1), address, data);
  }

  /** What holds between attempts of `write`: the write stays confined, the
      transport stays reliable if it was, and over a reliable transport to a
      current chain, or in the view-change retry, nothing has happened yet. */
  ghost predicate WriteInv(e0: Env, e: Env, address: Int64, data: Bytes, lost: bool) {
    && Valid(e0) && Valid(e) && e.views == e0.views && e0.current <= e.current
    && Confined(e0.units, e.units, data, address, e.views, e0.current, e.current, false)
    && (Reliable(e0.links) ==> Reliable(e.links))
    && (Reliable(e0.links) && ChainCurrent(e0, address) ==> e == e0)
    && (lost ==> e == e0)
  }

  lemma StoppedAtRefused(e0: Env, e: Env, address: Int64, data: Bytes, f: UnitFailure)
    requires Valid(e0) && Valid(e) && Locate(CurrentView(e0), address).Success? && StoppedAt(e0, e, address, data, f)
    ensures exists k: nat :: RefusedAt(e, address, data, k, f)
  {
  }

  /** The NetworkException handler of `write`: take the next view, then
      see whether the write took effect after all by reading the address
      back. `Some(Pass)`: it did; `Some(Fail(Blocked))`: there is no next
      view, or the read found none; `None`: try the write again. */
  method ReadBack(e0: Env, address: Int64, data: Bytes) returns (e: Env, r: Option<Outcome<OpError>>)
    requires Valid(e0)
    ensures Valid(e) && e.units == e0.units && e.views == e0.views && e0.current <= e.current
    ensures r != Some(Fail(Blocked)) ==> e0.current < e.current
    ensures r.Some? ==> r == Some(Pass) || r == Some(Fail(Blocked))
    ensures r == Some(Pass) ==> TailRead(e, address) == Success(data)
    ensures r == Some(Fail(Blocked)) ==> e.current == |e.views| - 1
    ensures Reliable(e0.links) ==> Reliable(e.links)
    ensures e0.current + 1 < |e0.views| && Reliable(e0.links) &&
            TailRead(e0.(current := e0.current + 1), address) == Success(data) &&
            Locate(e0.views[e0.current + 1], address).Success? ==>
              r == Some(Pass) && e == e0.(current := e0.current + 1, links := RestLinks(e0.links))
  {
    var next := InvalidateViewAndWait(e0);
    if next.None? {
      return e0, Some(Fail(Blocked));
    }
    var back;
    e, back := Read(next.value, address);
    if back == Failure(Blocked) {
      return e, Some(Fail(Blocked));
    }
    if back == Success(data) {
      return e, Some(Pass);
    }
    return e, None;
  }

  /** One pass of the retry loop of `write`: the chain write under the view
      in use and, after a NetworkException, the read-back under the next
      view. `None`: the write is tried again, under a later view. */
  method WriteAttempt(e0: Env, address: Int64, data: Bytes) returns (e: Env, r: Option<Outcome<OpError>>, ghost readBack: bool)
    requires Valid(e0)
    ensures Valid(e) && e.views == e0.views && e0.current <= e.current
    ensures Confined(e0.units, e.units, data, address, e.views, e0.current, e.current, false)
    ensures r.None? ==> e0.current < e.current
    ensures r == Some(Pass) ==> TailRead(e, address) == Success(data)
    ensures r == Some(Pass) && !readBack ==> ChainHolds(e, address, data)
    ensures r.Some? && r.value.Fail? ==> r.value.error.UnitError? || r.value.error.BadRoute? || r.value.error.Blocked?
    ensures r.Some? && r.value.Fail? && r.value.error.UnitError? ==>
              (r.value.error.failure.Overwrite? || r.value.error.failure.Trimmed?) &&
              exists k: nat :: RefusedAt(e, address, data, k, r.value.error.failure)
    ensures r.Some? && r.value.Fail? && r.value.error.BadRoute? ==> Locate(CurrentView(e), address) == Failure(r.value.error.route)
    ensures r == Some(Fail(Blocked)) ==> e.current == |e.views| - 1
    ensures readBack ==> r == Some(Pass) && e0.current < e.current
    ensures Reliable(e0.links) ==> Reliable(e.links)
    ensures Reliable(e0.links) && ChainCurrent(e0, address) ==>
              r.Some? && r != Some(Fail(Blocked)) && !readBack && e.current == e0.current
    ensures Reliable(e0.links) && ChainCurrent(e0, address) && Locate(CurrentView(e0), address).Success? &&
            r.Some? && r.value.Fail? && r.value.error.UnitError? ==>
              StoppedAt(e0, e, address, data, r.value.error.failure)
    ensures Reliable(e0.links) && ChainCurrent(e0, address) && Locate(CurrentView(e0), address).Success? && r == Some(Pass) ==>
              HeadFree(e0, address)
    ensures LostTailReply(e0, address) ==>
              r == Some(Pass) && readBack && e.current == e0.current + 1 &&
              e.links == Drop(e0.links, |RoutedChain(e0, address)| + 1)
  {
    readBack := false;
    var loc := Locate(CurrentView(e0), address);
    if loc.Failure? {
      ConfinedStart(e0.units, data, address, e0.views, e0.current, false);
      return e0, Some(Fail(BadRoute(loc.error))), false;
    }
    var f;
    e, f := WriteChain(e0, address, data);
    if LostTailReply(e0, address) {
      LostReplyRetry(e0, e, f, address, data);
    }
    if f == None {
      ReadAfterChainHolds(e, address, data);
      return e, Some(Pass), false;
    }
    if f.value != Network {
      StoppedAtRefused(e0, e, address, data, f.value);
      return e, Some(Fail(UnitError(f.value))), false;
    }
    var e1 := e;
    e, r := ReadBack(e1, address, data);
    ConfinedLater(e0.units, e.units, data, address, e.views, e0.current, e1.current, e.current, false);
    readBack := r == Some(Pass);
  }

  /** `write(address, data)`. On success the address reads back as `data`;
      unless success was concluded from a read-back after a lost reply, every
      unit of the chain holds it. OVERWRITE and TRIMMED end the operation
      with the chain written up to the unit that refused. Whatever happens,
      the write only ever fills free slots that `address` routes to. In the
      view-change retry the read-back finds the data and the write succeeds
      without writing again. */
  method Write(e0: Env, address: Int64, data: Bytes) returns (e: Env, r: Outcome<OpError>, ghost readBack: bool)
    requires Valid(e0)
    ensures Valid(e) && e.views == e0.views && e0.current <= e.current
    ensures Confined(e0.units, e.units, data, address, e.views, e0.current, e.current, false)
    ensures r.Pass? ==> TailRead(e, address) == Success(data)
    ensures r.Pass? && !readBack ==> ChainHolds(e, address, data)
    ensures r.Fail? ==> r.error.UnitError? || r.error.BadRoute? || r.error.Blocked?
    ensures r.Fail? && r.error.UnitError? ==>
              (r.error.failure.Overwrite? || r.error.failure.Trimmed?) &&
              exists k: nat :: RefusedAt(e, address, data, k, r.error.failure)
    ensures r.Fail? && r.error.BadRoute? ==> Locate(CurrentView(e), address) == Failure(r.error.route)
    ensures r == Fail(Blocked) ==> e.current == |e.views| - 1
    ensures readBack ==> r.Pass? && e0.current < e.current
    ensures Reliable(e0.links) ==> Reliable(e.links)
    ensures Reliable(e0.links) && ChainCurrent(e0, address) ==>
              r != Fail(Blocked) && !readBack && e.current == e0.current
    ensures Reliable(e0.links) && ChainCurrent(e0, address) && Locate(CurrentView(e0), address).Success? &&
            r.Fail? && r.error.UnitError? ==>
              StoppedAt(e0, e, address, data, r.error.failure)
    ensures Reliable(e0.links) && ChainCurrent(e0, address) && Locate(CurrentView(e0), address).Success? && r.Pass? ==>
              HeadFree(e0, address)
    ensures LostTailReply(e0, address) ==>
              r == Pass && readBack && e.current == e0.current + 1 &&
              e.links == Drop(e0.links, |RoutedChain(e0, address)| + 1)
  {
    e := e0;
    ConfinedStart(e0.units, data, address, e0.views, e0.current, false);
    ghost var lost := LostTailReply(e0, address);
    while true
      invariant WriteInv(e0, e, address, data, lost)
      decreases |e.views| - e.current
    {
      var e1, attempt, rb := WriteAttempt(e, address, data);
      ConfinedTrans(e0.units, e.units, e1.units, data, address, e.views, e0.current, e.current, e1.current, false);
      e := e1;
      if attempt.Some? {
        return e, attempt.value, rb;
      }
    }
  }

  /** A write followed by a read of the same address, over a reliable
      transport to a current chain: the read returns what was written. */
  method WriteThenRead(e0: Env, address: Int64, data: Bytes) returns (e: Env, r: Outcome<OpError>, back: Result<Bytes, OpError>)
    requires Valid(e0) && Reliable(e0.links) && ChainCurrent(e0, address)
    ensures Valid(e) && e.units.Keys == e0.units.Keys && e.views == e0.views && e.current == e0.current
    ensures r.Pass? ==> back == Success(data)
    ensures r.Fail? ==> (r.error.UnitError? || r.error.BadRoute?) && back == Failure(r.error)
  {
    ghost var readBack;
    e, r, readBack := Write(e0, address, data);
    if r.Fail? {
      return e, r, Failure(r.error);
    }
    e, back := Read(e, address);
  }

  /** `readObject(address)`: the read, deserialized by `decode`. */
  method ReadObject(e0: Env, address: Int64, decode: Bytes -> Option<Object>) returns (e: Env, r: Result<Object, OpError>)
    requires Valid(e0)
    ensures Valid(e) && e.units == e0.units && e.views == e0.views && e0.current <= e.current
    ensures r != Failure(Blocked) ==> r == DecodedRead(e, address, decode)
    ensures r == Failure(Blocked) ==> e.current == |e.views| - 1
    ensures Reliable(e0.links) ==> e.current == e0.current && r == DecodedRead(e0, address, decode) && Reliable(e.links)
  {
    var payload;
    e, payload := Read(e0, address);
    if payload.Failure? {
      return e, Failure(payload.error);
    }
    var obj := decode(payload.value);
    if obj.None? {
      return e, Failure(Undecodable);
    }
    return e, Success(obj.value);
  }
}
