/** The nine lifecycle states of a tunnel. In the program `Status` is an `int`
    whose named constants are assigned by `iota` in declaration order; here the
    named constants form a datatype and `Ordinal` gives back their numbers. */
module StatusEnum {
  import opened Basics

  datatype Status =
    | Undefined   // never a settled state; seeing it means something is wrong
    | Close       // initial state, nothing launched yet
    | Opening     // display-only step between a first launch and Open
    | Open        // the child process is running
    | Error       // the child failed; retried through Reopening
    | Reopening   // retry staging after Error or Signal
    | PortBusy    // the local port was occupied, nothing launched
    | Signal      // the child was terminated by a signal
    | Cooper      // the child ended with no error at all

  /** Number of named constants. */
  const Count: nat := 9

  /** The constants in declaration order. */
  const Declared: seq<Status> :=
    [Undefined, Close, Opening, Open, Error, Reopening, PortBusy, Signal, Cooper]

  /** The integer value `iota` gives each constant. */
  function Ordinal(s: Status): (n: nat)
    ensures n < Count
    ensures Declared[n] == s
  {
    match s
    case Undefined => 0
    case Close => 1
    case Opening => 2
    case Open => 3
    case Error => 4
    case Reopening => 5
    case PortBusy => 6
    case Signal => 7
    case Cooper => 8
  }

  /** The named constant with a given integer value, if there is one. */
  function FromOrdinal(i: int): (r: Option<Status>)
    ensures r.Some? <==> 0 <= i < Count
    ensures r.Some? ==> Ordinal(r.value) == i
  {
    if 0 <= i < Count then Some(Declared[i]) else None
  }

  /** Exactly nine constants, numbered 0..8 in declaration order, each once. */
  lemma DeclarationOrder()
    ensures |Declared| == Count
    ensures forall k :: 0 <= k < Count ==> Ordinal(Declared[k]) == k
    ensures forall s: Status :: s in Declared
  {
    forall s: Status ensures s in Declared {
      assert Declared[Ordinal(s)] == s;
    }
  }

  lemma OrdinalRoundTrip(s: Status)
    ensures FromOrdinal(Ordinal(s)) == Some(s)
  {
  }

  lemma OrdinalInjective(s: Status, t: Status)
    requires Ordinal(s) == Ordinal(t)
    ensures s == t
  {
  }
}
