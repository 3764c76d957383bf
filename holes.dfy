/** The address a stream names when it meets a hole. `readNextEntry` and
    `readEntry` build their HoleEncounteredException from the address the
    UnwrittenException carries. That exception comes from the log unit, which
    only knows its own mapped address, so over more than one replica group
    the stream names the wrong address. The stream model (`Streams`) names
    the global address the scan was reading. */
module StreamHoles {
  import opened Base
  import opened LogUnits
  import opened Views
  import opened Cluster
  import opened Streams

  /** The exception the source builds from an UnwrittenException, as written:
      it passes on the address the exception carries. */
  function HoleAsWritten(f: UnitFailure): (r: StreamError)
    requires f.Unwritten?
    ensures r.HoleEncountered? && r.address == f.address
  {
    HoleEncountered(f.address)
  }

  /** What a read of an unwritten `address` reports through the write-once
      address space: the mapped address, `address / n` with Java's
      truncating division. */
  lemma UnwrittenCarriesMappedAddress(e: Env, address: Int64)
    requires Valid(e) && TailRead(e, address).Failure?
    requires TailRead(e, address).error.UnitError? && TailRead(e, address).error.failure.Unwritten?
    ensures TailRead(e, address).error.failure.address == JavaDiv(address, GroupCount(CurrentView(e)))
  {
    var v := CurrentView(e);
    var loc := Locate(v, address);
    assert loc.Success?;
    var u := e.units[TailOf(v, e.units.Keys, address)];
    ClientReadOutcomes(u, loc.value.mapped);
    assert TailRead(e, address) == Failure(UnitError(Unwritten(loc.value.mapped)));
  }

  /** As written, with two or more groups, the hole at every global address
      but 0 is reported at a different address. */
  lemma {:induction false} HoleAsWrittenMisplaced(e: Env, address: Int64)
    requires Valid(e) && GroupCount(CurrentView(e)) >= 2 && address != 0
    requires TailRead(e, address).Failure?
    requires TailRead(e, address).error.UnitError? && TailRead(e, address).error.failure.Unwritten?
    ensures HoleAsWritten(TailRead(e, address).error.failure) != HoleEncountered(address)
  {
    UnwrittenCarriesMappedAddress(e, address);
    var n := GroupCount(CurrentView(e));
    if address > 0 {
      QuotientBelow(address, n);
    } else {
      QuotientBelow(-(address as int), n);
    }
  }

  lemma QuotientBelow(a: nat, n: nat)
    requires n >= 2 && a >= 1
    ensures a / n < a
  {
    assert a == (a / n) * n + a % n;
    if a / n >= a {
      assert (a / n) * n >= a * 2 by {
        MulMonotone(a, a / n, n);
      }
    }
  }

  lemma MulMonotone(a: nat, b: nat, n: nat)
    requires a <= b && n >= 2
    ensures b * n >= a * 2
  {
    assert b * n >= b * 2;
  }

  /** Two units, one per group, nothing written: global address 5 lives at
      mapped address 2 of group 1. */
  function TwoGroupCluster(): (e: Env)
    ensures Valid(e) && GroupCount(CurrentView(e)) == 2
  {
    Env(map[0 := LogUnit(0, map[]), 1 := LogUnit(0, map[])], [View(0, [Segment([[0], [1]])])], 0, [])
  }

  /** The counterexample: reading the unwritten global address 5 yields
      UNWRITTEN at 2, and the stream, as written, reports the hole at 2. */
  lemma HoleAddressCounterexample()
    ensures TailRead(TwoGroupCluster(), 5) == Failure(UnitError(Unwritten(2)))
    ensures HoleAsWritten(Unwritten(2)) == HoleEncountered(2) != HoleEncountered(5)
  {
    var e := TwoGroupCluster();
    assert Locate(CurrentView(e), 5) == Success(Route(1, 2));
  }
}
