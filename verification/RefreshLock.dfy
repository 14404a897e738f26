/** The loopback port that stands for a lock (mcp/src/refresh-coordination.ts). */
module RefreshLock {
  import opened Credentials
  import opened Text
  import opened Wrappers

  const FIRST_PORT: nat := 20000
  const PORT_COUNT: nat := 10000
  const PAUSE: nat := 50

  /** The first four bytes of the digest of a home directory, an origin and a realm. */
  type Digest = (seq<Unit>, Origin, Realm) -> nat

  function PortOf(digest: Digest, home: seq<Unit>, origin: Origin, realm: Realm): (port: nat)
    ensures FIRST_PORT <= port < FIRST_PORT + PORT_COUNT
  {
    FIRST_PORT + digest(home, origin, realm) % PORT_COUNT
  }

  /** The lock is one of ten thousand ports from 20000 on, and two connectors share it
    * exactly when their digests end in the same four decimal digits.
    */
  lemma PortExact(digest: Digest, home: seq<Unit>, origin: Origin, realm: Realm, other: (seq<Unit>, Origin, Realm))
    ensures var port := PortOf(digest, home, origin, realm);
            && 20000 <= port <= 29999 && port % 10000 == digest(home, origin, realm) % 10000
            && (port == PortOf(digest, other.0, other.1, other.2) <==>
                  digest(home, origin, realm) % 10000 == digest(other.0, other.1, other.2) % 10000)
  {
  }

  /** Two connectors of one user that could read the same stored token contend for the
    * same lock.
    */
  lemma SharedCredentialSharedLock(digest: Digest, home: seq<Unit>, a: Store, b: Store)
    requires AccountOf(a) == AccountOf(b)
    ensures PortOf(digest, home, a.origin, a.realm) == PortOf(digest, home, b.origin, b.realm)
  {
    AccountsNeverCollide(a, b);
  }

  /** How an attempt to listen ends. */
  datatype Attempt = Listening | InUse | Broken

  datatype Effect = Taken(attempt: nat) | Acted | Closed

  /** The attempts before `k` found the port in use, in good time. */
  ghost predicate Waited(attempts: nat -> Attempt, clock: nat -> nat, deadline: nat, k: nat) {
    forall j: nat :: j < k ==> attempts(j) == InUse && clock(j) < deadline
  }

  /** Every pause is as long as it should be. */
  ghost predicate Ticks(clock: nat -> nat) {
    forall k: nat :: clock(k) + PAUSE <= clock(k + 1)
  }

  class Process {
    var log: seq<Effect>

    constructor ()
      ensures log == []
    {
      log := [];
    }

    /** Runs the action under the lock, or refuses. The action is run once, between
      * taking the lock and giving it back, and the lock is given back however the
      * action ends. Without the lock nothing is done at all.
      */
    method WithLock(attempts: nat -> Attempt, clock: nat -> nat, waitMs: nat, actionThrows: bool)
      returns (held: bool, ok: bool, k: nat)
      requires Ticks(clock)
      modifies this
      ensures Waited(attempts, clock, clock(0) + waitMs, k)
      ensures held <==> attempts(k) == Listening
      ensures !held ==> attempts(k) == Broken || clock(k) >= clock(0) + waitMs
      ensures log == old(log) + if held then [Taken(k), Acted, Closed] else []
      ensures ok <==> held && !actionThrows
      ensures PAUSE * k <= waitMs + PAUSE
    {
      var deadline := clock(0) + waitMs;
      k := 0;
      while attempts(k) == InUse && clock(k) < deadline
        invariant Waited(attempts, clock, deadline, k)
        invariant clock(0) + PAUSE * k <= clock(k)
        invariant k > 0 ==> clock(0) + PAUSE * (k - 1) < deadline
        decreases deadline - clock(k)
      {
        k := k + 1;
      }
      held := attempts(k) == Listening;
      if held {
        log := log + [Taken(k)];
        log := log + [Acted];
        log := log + [Closed];
      }
      ok := held && !actionThrows;
    }
  }
}
