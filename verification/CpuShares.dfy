/** The translation of a number of CPUs to engine CPU shares and back. */
module CpuShares {
  import opened Arithmetic

  const SHARES := 1024

  /** What an engine with `cpus` CPUs is asked for. */
  function ToShares(requested: int, cpus: int): int
    requires cpus > 0
  {
    Ceiling(requested * SHARES, cpus)
  }

  /** That is the least number of shares of which 1024 stand for all CPUs and that is enough for the request. */
  lemma SharesAreLeast(requested: int, cpus: int, shares: int)
    requires cpus > 0
    ensures shares >= ToShares(requested, cpus) <==> shares * cpus >= requested * 1024
  {
    CeilingAtMost(requested * SHARES, cpus, shares);
  }

  /** What inspecting the container gives back. */
  function FromShares(shares: int, cpus: int): int {
    Quotient(shares * cpus, SHARES)
  }

  /** The number of CPUs the manager books for a registered container. */
  function Booked(requested: int, cpus: int): int
    requires cpus > 0
  {
    FromShares(ToShares(requested, cpus), cpus)
  }

  /** A booking is never below the request, and above it by less than one CPU in 1024 of the engine. */
  lemma BookedBounds(requested: int, cpus: int)
    requires requested >= 0 && cpus > 0
    ensures requested <= Booked(requested, cpus) <= requested + (cpus - 1) / SHARES
  {
    var shares := ToShares(requested, cpus);
    var a := requested * SHARES;
    assert -a == ((-a) / cpus) * cpus + (-a) % cpus;
    assert shares * cpus == a + (-a) % cpus;
    var excess := (-a) % cpus;
    assert 0 <= excess <= cpus - 1;
    assert shares * cpus == requested * SHARES + excess;
    assert Booked(requested, cpus) == requested + excess / SHARES;
  }

  /** Every request survives the round trip exactly on engines of at most 1024 CPUs. */
  lemma RoundTripIff(cpus: int)
    requires cpus > 0
    ensures (forall requested :: requested >= 0 ==> Booked(requested, cpus) == requested) <==> cpus <= SHARES
  {
    if cpus <= SHARES {
      forall requested | requested >= 0 ensures Booked(requested, cpus) == requested {
        BookedBounds(requested, cpus);
      }
    } else {
      OneTooMany(cpus);
    }
  }

  /** On a larger engine a request for all CPUs but one is booked as all of them. */
  lemma OneTooMany(cpus: int)
    requires cpus > SHARES
    ensures Booked(cpus - 1, cpus) == cpus
  {
    var a := (cpus - 1) * SHARES;
    assert -a == -SHARES * cpus + SHARES;
    QuotientAtMost(-a, cpus, -SHARES);
    QuotientAtMost(-a, cpus, -SHARES - 1);
  }
}
