/**
 * The search for a free port in the dynamic range of section 6 of RFC 6335,
 * from a hashed start and wrapping around.  The hash is an arbitrary value.
 */
module ServicePorts {
  import opened Basics

  const FIRST_PORT: nat := 49152
  const PORT_COUNT: nat := 16384
  const CONTROL_PORT: nat := 50051

  predicate Dynamic(port: nat) {
    FIRST_PORT <= port < FIRST_PORT + PORT_COUNT
  }

  /** The `i`-th port looked at. */
  function Probe(hash: nat, i: nat): nat {
    FIRST_PORT + (hash % PORT_COUNT + i) % PORT_COUNT
  }

  /** The first free port from the `i`-th probe on, or 0. */
  function FreeFrom(hash: nat, occupied: set<nat>, i: nat): nat
    requires i <= PORT_COUNT
    decreases PORT_COUNT - i
  {
    if i == PORT_COUNT then 0
    else if Probe(hash, i) !in occupied then Probe(hash, i)
    else FreeFrom(hash, occupied, i + 1)
  }

  function Allocate(hash: nat, occupied: set<nat>): nat {
    FreeFrom(hash, occupied, 0)
  }

  method AllocateServicePort(hash: nat, occupied: set<nat>) returns (port: nat)
    ensures port == Allocate(hash, occupied)
  {
    var start := hash % PORT_COUNT + FIRST_PORT;
    var i := 0;
    while i < PORT_COUNT
      invariant i <= PORT_COUNT
      invariant Allocate(hash, occupied) == FreeFrom(hash, occupied, i)
    {
      var p := FIRST_PORT + (start - FIRST_PORT + i) % PORT_COUNT;
      if p !in occupied {
        return p;
      }
      i := i + 1;
    }
    return 0;
  }

  // ---------------------------------------------------------------------
  // The probe visits every port exactly once
  // ---------------------------------------------------------------------

  /** How far into the search a port is looked at. */
  function Distance(hash: nat, port: nat): nat
    requires Dynamic(port)
  {
    (port - FIRST_PORT + PORT_COUNT - hash % PORT_COUNT) % PORT_COUNT
  }

  lemma ProbeOnce(hash: nat, port: nat, i: nat)
    requires Dynamic(port) && i < PORT_COUNT
    ensures Distance(hash, port) < PORT_COUNT
    ensures Probe(hash, i) == port <==> i == Distance(hash, port)
    ensures Dynamic(Probe(hash, i))
  {
    var start := hash % PORT_COUNT;
    var d := port - FIRST_PORT + PORT_COUNT - start;
    assert d % PORT_COUNT == if d < PORT_COUNT then d else d - PORT_COUNT;
    assert (start + i) % PORT_COUNT == if start + i < PORT_COUNT then start + i else start + i - PORT_COUNT;
  }

  // ---------------------------------------------------------------------
  // What the search returns
  // ---------------------------------------------------------------------

  lemma {:induction false} FreeFromMeaning(hash: nat, occupied: set<nat>, i: nat, port: nat)
    requires i <= PORT_COUNT && Dynamic(port)
    ensures FreeFrom(hash, occupied, i) == port <==>
      && i <= Distance(hash, port) && port !in occupied
      && forall k :: i <= k < Distance(hash, port) ==> Probe(hash, k) in occupied
    decreases PORT_COUNT - i
  {
    if i < PORT_COUNT {
      ProbeOnce(hash, port, i);
      FreeFromMeaning(hash, occupied, i + 1, port);
    } else {
      ProbeOnce(hash, port, 0);
    }
  }

  /** A port is allocated exactly when it is free and every port looked at before it is occupied. */
  lemma AllocateMeaning(hash: nat, occupied: set<nat>, port: nat)
    requires Dynamic(port)
    ensures Allocate(hash, occupied) == port <==>
      port !in occupied && forall k :: 0 <= k < Distance(hash, port) ==> Probe(hash, k) in occupied
  {
    FreeFromMeaning(hash, occupied, 0, port);
  }

  lemma {:induction false} FreeFromRange(hash: nat, occupied: set<nat>, i: nat)
    requires i <= PORT_COUNT
    ensures var p := FreeFrom(hash, occupied, i);
      if p == 0 then forall k :: i <= k < PORT_COUNT ==> Probe(hash, k) in occupied
      else Dynamic(p) && p !in occupied
    decreases PORT_COUNT - i
  {
    if i < PORT_COUNT {
      FreeFromRange(hash, occupied, i + 1);
    }
  }

  ghost function PortsBelow(n: nat): set<nat> {
    if n == 0 then {} else PortsBelow(n - 1) + {FIRST_PORT + n - 1}
  }

  lemma {:induction false} PortsBelowSize(n: nat)
    ensures |PortsBelow(n)| == n && forall p :: p in PortsBelow(n) <==> FIRST_PORT <= p < FIRST_PORT + n
  {
    if n > 0 {
      PortsBelowSize(n - 1);
    }
  }

  /** The fallback 0 is returned exactly when all 16384 ports are occupied. */
  lemma AllocateFails(hash: nat, occupied: set<nat>)
    ensures Allocate(hash, occupied) == 0 <==> forall p :: Dynamic(p) ==> p in occupied
  {
    FreeFromRange(hash, occupied, 0);
    if Allocate(hash, occupied) == 0 {
      forall p | Dynamic(p) ensures p in occupied {
        ProbeOnce(hash, p, Distance(hash, p));
        assert Probe(hash, Distance(hash, p)) in occupied;
      }
    }
  }

  /** With any free port left, the search returns a free dynamic port, whatever the hash. */
  lemma AllocateSucceeds(hash: nat, occupied: set<nat>)
    requires |occupied| < PORT_COUNT
    ensures Dynamic(Allocate(hash, occupied)) && Allocate(hash, occupied) !in occupied
  {
    FreeFromRange(hash, occupied, 0);
    AllocateFails(hash, occupied);
    if Allocate(hash, occupied) == 0 {
      PortsBelowSize(PORT_COUNT);
      SubsetSize(PortsBelow(PORT_COUNT), occupied);
    }
  }

  // ---------------------------------------------------------------------
  // The control port is not excluded
  // ---------------------------------------------------------------------

  /**
   * sandboxd's control port is handed out exactly when it is not itself
   * occupied and every port from the hashed start up to it is.
   */
  lemma AllocatesControlPort(hash: nat, occupied: set<nat>)
    ensures Allocate(hash, occupied) == CONTROL_PORT <==>
      && CONTROL_PORT !in occupied
      && forall k :: 0 <= k < Distance(hash, CONTROL_PORT) ==> Probe(hash, k) in occupied
  {
    AllocateMeaning(hash, occupied, CONTROL_PORT);
  }

  /** For instance with nothing occupied and a hash of 899, the 900th port of the range. */
  lemma AllocatesControlPortExample()
    ensures Allocate(899, {}) == CONTROL_PORT
  {
    assert 899 % PORT_COUNT == 899;
    AllocatesControlPort(899, {});
  }
}
