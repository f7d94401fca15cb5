/** Request proofs are accepted at most once (internal/middleware/auth.go, internal/db/queries.go UseRequestNonce).
    Clock readings are nanoseconds; signed timestamps and expiry columns are milliseconds. */
module Replay {
  import opened Tables

  const MILLI := 1_000_000                   // nanoseconds
  const MAX_SKEW_MS := 300_000
  const EXPIRY_MARGIN_MS := MAX_SKEW_MS + 60_000
  const MARGIN := 60_000 * MILLI

  /** A request as the middleware sees it: what was signed, whether its headers and signature are in order, and the one
      reading of the clock. */
  datatype Request = Request(device: Id, nonce: Bytes, signedAtMs: int, wellFormed: bool, signatureOk: bool, clock: int)

  type Nonces = map<(Id, Digest), int>

  function Key(r: Request): (Id, Digest) {
    (r.device, Sha256(r.nonce))
  }

  // time.Time.UnixMilli rounds down.
  function UnixMilli(t: int): int {
    t / MILLI
  }

  // Neither Before(now - skew) nor After(now + skew).
  predicate InWindow(r: Request) {
    r.clock - MAX_SKEW_MS * MILLI <= r.signedAtMs * MILLI <= r.clock + MAX_SKEW_MS * MILLI
  }

  predicate Proven(r: Request) {
    r.wellFormed && InWindow(r) && 16 <= |r.nonce| <= 32 && r.signatureOk
  }

  // `DELETE FROM request_nonces WHERE expires_at <= now`
  function PurgeExpired(nonces: Nonces, now: int): Nonces {
    map k | k in nonces && nonces[k] > now :: nonces[k]
  }

  // `INSERT OR IGNORE`
  function Occupy(nonces: Nonces, k: (Id, Digest), expiresAt: int): (Nonces, bool) {
    if k in nonces then (nonces, false) else (nonces[k := expiresAt], true)
  }

  /** The request_nonces table with the two calls that use it. */
  class ProofGuard {
    var nonces: Nonces

    constructor ()
      ensures nonces == map[]
    {
      nonces := map[];
    }

    /** The nonce is taken exactly if nobody holds it or its holder has expired. Afterwards it is held in any case,
        and every other nonce is held exactly if it has not expired. */
    method UseRequestNonce(k: (Id, Digest), expiresAt: int, now: int) returns (used: bool)
      modifies this
      ensures used <==> (k in old(nonces) ==> old(nonces)[k] <= now)
      ensures k in nonces && nonces[k] == if used then expiresAt else old(nonces)[k]
      ensures forall x :: x != k ==> (x in nonces <==> x in old(nonces) && old(nonces)[x] > now)
      ensures forall x :: x != k && x in nonces ==> nonces[x] == old(nonces)[x]
    {
      nonces := map x | x in nonces && nonces[x] > now :: nonces[x];
      used := k !in nonces;
      if used { nonces := nonces[k := expiresAt]; }
    }

    /** A request is accepted exactly if its headers are in order, its signature verifies, it was signed at most five
        minutes before or after the clock reading, and its nonce, of 16 to 32 bytes, is free for the device or held by
        an expired row. Then the nonce is held until six minutes after the signed time. A request that fails another
        check touches no nonce. */
    method RequireDeviceProof(r: Request) returns (accepted: bool)
      modifies this
      ensures var k := (r.device, Sha256(r.nonce));
              accepted <==>
                && r.wellFormed && r.signatureOk && 16 <= |r.nonce| <= 32
                && r.clock - 300_000 * 1_000_000 <= r.signedAtMs * 1_000_000 <= r.clock + 300_000 * 1_000_000
                && (k in old(nonces) ==> old(nonces)[k] * 1_000_000 <= r.clock)
      ensures accepted ==>
                && (r.device, Sha256(r.nonce)) in nonces
                && nonces[(r.device, Sha256(r.nonce))] == r.signedAtMs + 360_000
      ensures !(r.wellFormed && r.signatureOk && 16 <= |r.nonce| <= 32
                && r.clock - 300_000 * 1_000_000 <= r.signedAtMs * 1_000_000 <= r.clock + 300_000 * 1_000_000) ==>
                nonces == old(nonces)
      ensures Proven(r) ==>
                (nonces, accepted)
                == Occupy(PurgeExpired(old(nonces), UnixMilli(r.clock)), Key(r), r.signedAtMs + EXPIRY_MARGIN_MS)
    {
      if !r.wellFormed { return false; }
      var signedAt := r.signedAtMs * MILLI;
      if signedAt < r.clock - MAX_SKEW_MS * MILLI || signedAt > r.clock + MAX_SKEW_MS * MILLI { return false; }
      if |r.nonce| < 16 || |r.nonce| > 32 { return false; }
      if !r.signatureOk { return false; }
      ghost var purged := PurgeExpired(nonces, UnixMilli(r.clock));
      accepted := UseRequestNonce(Key(r), UnixMilli(signedAt + EXPIRY_MARGIN_MS * MILLI), UnixMilli(r.clock));
      assert nonces == Occupy(purged, Key(r), r.signedAtMs + EXPIRY_MARGIN_MS).0;
    }
  }

  // ---- runs ----

  /** The two statements of UseRequestNonce are separate: each runs at some moment after the request's clock reading. */
  datatype Step = Purge(request: Request, at: int) | Insert(request: Request, at: int)

  function Next(nonces: Nonces, step: Step): Nonces {
    match step
    case Purge(r, _) => PurgeExpired(nonces, UnixMilli(r.clock))
    case Insert(r, _) => Occupy(nonces, Key(r), r.signedAtMs + EXPIRY_MARGIN_MS).0
  }

  function Run(steps: seq<Step>): Nonces
    decreases |steps|
  {
    if steps == [] then map[] else Next(Run(steps[..|steps| - 1]), steps[|steps| - 1])
  }

  predicate Accepted(steps: seq<Step>, i: nat)
    requires i < |steps|
  {
    steps[i].Insert? && Key(steps[i].request) !in Run(steps[..i])
  }

  /** Time moves forward, every step belongs to a proven request and follows its clock reading, an insert follows the
      request's own purge, and it comes no more than `latency` after the reading. */
  predicate Legal(steps: seq<Step>, latency: int) {
    && (forall i, j :: 0 <= i < j < |steps| ==> steps[i].at <= steps[j].at)
    && (forall i :: 0 <= i < |steps| ==> Proven(steps[i].request) && steps[i].request.clock <= steps[i].at)
    && (forall i :: 0 <= i < |steps| && steps[i].Insert? ==>
          && steps[i].at <= steps[i].request.clock + latency
          && exists j :: 0 <= j < i && steps[j].Purge? && steps[j].request == steps[i].request)
  }

  /** The same proof: device, nonce and signed timestamp. */
  predicate SameProof(x: Request, y: Request) {
    Key(x) == Key(y) && x.signedAtMs == y.signedAtMs
  }

  ghost predicate AtMostOnce(latency: int) {
    forall steps: seq<Step>, i: nat, j: nat | Legal(steps, latency) && i < j < |steps|
                                              && SameProof(steps[i].request, steps[j].request) ::
      !(Accepted(steps, i) && Accepted(steps, j))
  }

  /** An occupied nonce stays occupied until a purge reads a clock past its expiry. */
  lemma {:induction false} RowStays(steps: seq<Step>, i: nat, j: nat, expiresAt: int)
    requires i < j <= |steps| && steps[i].Insert?
    requires var k := Key(steps[i].request); k in Run(steps[..i + 1]) && Run(steps[..i + 1])[k] == expiresAt
    requires forall p :: i < p < j && steps[p].Purge? ==> UnixMilli(steps[p].request.clock) < expiresAt
    ensures var k := Key(steps[i].request); k in Run(steps[..j]) && Run(steps[..j])[k] == expiresAt
    decreases j
  {
    if i + 1 < j {
      RowStays(steps, i, j - 1, expiresAt);
      assert steps[..j][..j - 1] == steps[..j - 1];
    }
  }

  lemma InsertOccupies(steps: seq<Step>, i: nat)
    requires i < |steps| && Accepted(steps, i)
    ensures var k := Key(steps[i].request);
            k in Run(steps[..i + 1]) && Run(steps[..i + 1])[k] == steps[i].request.signedAtMs + EXPIRY_MARGIN_MS
  {
    assert steps[..i + 1][..i] == steps[..i];
  }

  /** With less than 60 seconds from clock reading to insert, a proof is never accepted twice. */
  lemma SecondIsRefused(steps: seq<Step>, latency: int, i: nat, j: nat)
    requires Legal(steps, latency) && latency < MARGIN && i < j < |steps|
    requires SameProof(steps[i].request, steps[j].request) && Accepted(steps, i)
    ensures !Accepted(steps, j)
  {
    var expiresAt := steps[i].request.signedAtMs + EXPIRY_MARGIN_MS;
    InsertOccupies(steps, i);
    if steps[j].Insert? {
      forall p | i < p < j && steps[p].Purge? ensures UnixMilli(steps[p].request.clock) < expiresAt {
        assert steps[p].request.clock <= steps[p].at <= steps[j].at <= steps[j].request.clock + latency;
        assert InWindow(steps[j].request);
      }
      RowStays(steps, i, j, expiresAt);
    }
  }

  // A run that accepts a proof twice: between its two uses another request's clock passes the expiry and purges the
  // row.
  const N: Bytes := [0, 0, 0, 0, 0, 0, 0, 0, 0, 0, 0, 0, 0, 0, 0, 0]
  const M: Bytes := [1, 0, 0, 0, 0, 0, 0, 0, 0, 0, 0, 0, 0, 0, 0, 0]
  const FIRST := Request(0, N, 0, true, true, 0)
  const OTHER := Request(0, M, EXPIRY_MARGIN_MS, true, true, EXPIRY_MARGIN_MS * MILLI)
  const SECOND := Request(0, N, 0, true, true, MAX_SKEW_MS * MILLI)
  const REPLAY := [Purge(FIRST, 0), Insert(FIRST, 0), Purge(SECOND, MAX_SKEW_MS * MILLI),
                   Purge(OTHER, EXPIRY_MARGIN_MS * MILLI), Insert(SECOND, EXPIRY_MARGIN_MS * MILLI)]

  lemma ReplayIsLegal(latency: int)
    requires latency >= MARGIN
    ensures Legal(REPLAY, latency)
  {
    assert REPLAY[0].Purge? && REPLAY[0].request == REPLAY[1].request;
    assert REPLAY[2].Purge? && REPLAY[2].request == REPLAY[4].request;
  }

  lemma ReplayIsAccepted()
    ensures Accepted(REPLAY, 1) && Accepted(REPLAY, 4)
  {
    var k := Key(FIRST);
    assert REPLAY[..1] == [Purge(FIRST, 0)];
    assert REPLAY[..1][..0] == [];
    assert Run(REPLAY[..1]) == map[];
    assert REPLAY[..2][..1] == REPLAY[..1];
    assert Run(REPLAY[..2]) == map[k := EXPIRY_MARGIN_MS];
    assert REPLAY[..3][..2] == REPLAY[..2];
    assert Run(REPLAY[..3]) == map[k := EXPIRY_MARGIN_MS];
    assert REPLAY[..4][..3] == REPLAY[..3];
    assert Run(REPLAY[..4]) == map[];
  }

  /** Exactly when: proofs are accepted at most once if and only if every request takes under 60 seconds from its clock
      reading to its insert. At 60 seconds there is a run that accepts one twice. */
  lemma AtMostOnceIff(latency: int)
    ensures AtMostOnce(latency) <==> latency < 60_000_000_000
  {
    if latency < MARGIN {
      forall steps: seq<Step>, i: nat, j: nat | Legal(steps, latency) && i < j < |steps|
                                                && SameProof(steps[i].request, steps[j].request)
        ensures !(Accepted(steps, i) && Accepted(steps, j))
      {
        if Accepted(steps, i) { SecondIsRefused(steps, latency, i, j); }
      }
    } else {
      ReplayIsLegal(latency);
      ReplayIsAccepted();
      assert SameProof(REPLAY[1].request, REPLAY[4].request);
    }
  }
}
