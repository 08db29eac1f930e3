/**
  ns_override: whether a rule is NOT applied for a given uid.  A listed uid
  is exempt from polyinstantiation; with `exclusive` (a `~` before the
  list) the meaning is inverted and only the listed uids are polyinstantiated.
 */
module Override {
  import opened Types

  /** The decision ns_override computes: membership XOR `exclusive`. */
  predicate IsOverride(p: PolyDir, uid: Uid) {
    (uid in p.uids) != p.exclusive
  }

  /** ns_override: the scan of `uid[0..num_uids)`. */
  method NsOverride(p: PolyDir, uid: Uid) returns (r: bool)
    ensures r <==> (uid in p.uids) != p.exclusive
  {
    var i := 0;
    while i < |p.uids|
      invariant 0 <= i <= |p.uids|
      invariant uid !in p.uids[..i]
    {
      if uid == p.uids[i] {
        return !p.exclusive;
      }
      i := i + 1;
    }
    assert p.uids[..i] == p.uids;
    return p.exclusive;
  }

  /** Flipping `exclusive` with the same uid list negates the decision. */
  lemma ExclusiveFlipNegates(p: PolyDir, uid: Uid)
    ensures IsOverride(p.(exclusive := !p.exclusive), uid) == !IsOverride(p, uid)
  {
  }

  /** An exclusive rule applies to exactly the listed uids; a plain one to exactly the others. */
  lemma AppliesTo(p: PolyDir, uid: Uid)
    ensures !IsOverride(p, uid) <==> (if p.exclusive then uid in p.uids else uid !in p.uids)
  {
  }
}
