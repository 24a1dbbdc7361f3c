/** The life of one task as its leases tell it: granted, then expired, killed or committed. Nothing
    here mentions the store; the lemmas hold of every trail the automaton accepts. */
module LeaseProtocol {
  import opened JobTypes
  import opened Totals

  /** DidCommit carries the attempt the committing worker presented. */
  datatype Entry =
    | DidGrant(attempt: Id)
    | DidExpire(attempt: Id)
    | DidKill(attempt: Id)
    | DidCommit(attempt: Id)

  type Trail = seq<Entry>

  datatype Phase = Idle | Held(attempt: Id) | Closed | Broken

  function After(p: Phase, e: Entry): Phase {
    match (p, e)
    case (Idle, DidGrant(a)) => Held(a)
    case (Held(a), DidExpire(b)) => if a == b then Idle else Broken
    case (Held(a), DidKill(b)) => if a == b then Closed else Broken
    case (Held(a), DidCommit(b)) => if a == b then Closed else Broken
    case _ => Broken
  }

  function PhaseOf(h: Trail): Phase {
    if h == [] then Idle else After(PhaseOf(h[..|h| - 1]), h[|h| - 1])
  }

  function Grants(h: Trail): nat { Total(h, (e: Entry) => if e.DidGrant? then 1 else 0) }

  function Expiries(h: Trail): nat { Total(h, (e: Entry) => if e.DidExpire? then 1 else 0) }

  function Kills(h: Trail): nat { Total(h, (e: Entry) => if e.DidKill? then 1 else 0) }

  function Commits(h: Trail): nat { Total(h, (e: Entry) => if e.DidCommit? then 1 else 0) }

  lemma PhaseAppend(h: Trail, e: Entry)
    ensures PhaseOf(h + [e]) == After(PhaseOf(h), e)
    ensures Grants(h + [e]) == Grants(h) + (if e.DidGrant? then 1 else 0)
    ensures Expiries(h + [e]) == Expiries(h) + (if e.DidExpire? then 1 else 0)
  {
    assert (h + [e])[..|h|] == h;
  }

  /** Every grant is accounted for: it was committed, expired, killed, or is still held; and a
      commit or a kill is the last thing that ever happens to a task. */
  lemma {:induction false} LeasesConserved(h: Trail)
    requires PhaseOf(h) != Broken
    ensures Grants(h) == Commits(h) + Expiries(h) + Kills(h) + (if PhaseOf(h).Held? then 1 else 0)
    ensures Commits(h) + Kills(h) == if PhaseOf(h).Closed? then 1 else 0
    ensures Grants(h) <= 1 + Expiries(h)
  {
    if h != [] {
      LeasesConserved(h[..|h| - 1]);
    }
  }

  lemma {:induction false} PrefixAccepted(h: Trail, n: nat)
    requires n <= |h|
    requires PhaseOf(h) != Broken
    ensures PhaseOf(h[..n]) != Broken
    decreases |h|
  {
    if n < |h| {
      PrefixAccepted(h[..|h| - 1], n);
      assert h[..|h| - 1][..n] == h[..n];
    } else {
      assert h[..n] == h;
    }
  }

  lemma PhaseAt(h: Trail, i: nat)
    requires i < |h|
    ensures PhaseOf(h[..i + 1]) == After(PhaseOf(h[..i]), h[i])
  {
    assert h[..i + 1] == h[..i] + [h[i]];
    PhaseAppend(h[..i], h[i]);
  }

  lemma HeldByLast(h: Trail)
    requires PhaseOf(h).Held?
    ensures h != [] && h[|h| - 1] == DidGrant(PhaseOf(h).attempt)
  {
  }

  /** Whatever ends a lease names the attempt of the grant immediately before it; a commit or a kill
      has nothing after it. */
  lemma ReleaseFollowsItsGrant(h: Trail, i: nat)
    requires PhaseOf(h) != Broken
    requires i < |h| && !h[i].DidGrant?
    ensures i > 0 && h[i - 1] == DidGrant(h[i].attempt)
    ensures h[i].DidCommit? || h[i].DidKill? ==> i == |h| - 1
  {
    PrefixAccepted(h, i + 1);
    PhaseAt(h, i);
    HeldByLast(h[..i]);
    if i + 1 < |h| {
      PrefixAccepted(h, i + 2);
      PhaseAt(h, i + 1);
    }
  }

  predicate DistinctGrants(h: Trail) {
    forall p, q :: 0 <= p < q < |h| && h[p].DidGrant? && h[q].DidGrant? ==> h[p] != h[q]
  }

  /** An attempt whose lease has ended is not the attempt that holds the task. */
  lemma EndedAttemptNotHeld(h: Trail, i: nat)
    requires PhaseOf(h) != Broken && DistinctGrants(h)
    requires i < |h| && !h[i].DidGrant?
    ensures PhaseOf(h) != Held(h[i].attempt)
  {
    ReleaseFollowsItsGrant(h, i);
    if PhaseOf(h).Held? {
      assert h[|h| - 1] == DidGrant(PhaseOf(h).attempt);
      assert h[i - 1] != h[|h| - 1];
    }
  }
}
