/**
 Object identifiers and their lexicographic order, the order in which an SNMP agent answers
 GetNext and GetBulk requests (section 4.2.2 of RFC 3416).
 */
module OidOrder {
  type Oid = seq<nat>

  /** Strict lexicographic order; a proper prefix comes before its extensions. */
  predicate Less(a: Oid, b: Oid) {
    if b == [] then false
    else if a == [] then true
    else a[0] < b[0] || (a[0] == b[0] && Less(a[1..], b[1..]))
  }

  /** `oid` lies strictly below `root`: `root` is a proper prefix of it. */
  predicate Under(root: Oid, oid: Oid) {
    |root| < |oid| && root == oid[..|root|]
  }

  lemma UnderStep(root: Oid, oid: Oid)
    requires root != [] && oid != []
    ensures Under(root, oid) <==> root[0] == oid[0] && Under(root[1..], oid[1..])
  {
    if |root| < |oid| {
      assert oid[..|root|] == [oid[0]] + oid[1..][..|root| - 1];
      assert root == [root[0]] + root[1..];
    }
  }

  /** Two identifiers compare as their first differing components do. */
  lemma {:induction false} LessAtFork(common: Oid, m: nat, n: nat, a: Oid, b: Oid)
    requires m != n
    ensures Less(common + [m] + a, common + [n] + b) <==> m < n
  {
    if common != [] {
      LessAtFork(common[1..], m, n, a, b);
      assert (common + [m] + a)[1..] == common[1..] + [m] + a;
      assert (common + [n] + b)[1..] == common[1..] + [n] + b;
    }
  }

  lemma {:induction false} LessTransitive(a: Oid, b: Oid, c: Oid)
    requires Less(a, b) && Less(b, c)
    ensures Less(a, c)
  {
    if a != [] && a[0] == b[0] && b[0] == c[0] {
      LessTransitive(a[1..], b[1..], c[1..]);
    }
  }

  lemma {:induction false} LessIrreflexive(a: Oid)
    ensures !Less(a, a)
  {
    if a != [] { LessIrreflexive(a[1..]); }
  }

  lemma LessAsymmetric(a: Oid, b: Oid)
    requires Less(a, b)
    ensures !Less(b, a)
  {
    if Less(b, a) {
      LessTransitive(a, b, a);
      LessIrreflexive(a);
    }
  }

  lemma {:induction false} LessAbove(root: Oid, oid: Oid)
    requires Under(root, oid)
    ensures Less(root, oid)
  {
    if root != [] {
      UnderStep(root, oid);
      LessAbove(root[1..], oid[1..]);
    }
  }

  /**
   A subtree is contiguous: once the order has passed `root` and left the subtree of `root`,
   it never comes back to it.
   */
  lemma {:induction false} SubtreeContiguous(root: Oid, outside: Oid, later: Oid)
    requires Less(root, outside) && !Under(root, outside) && Less(outside, later)
    ensures !Under(root, later)
  {
    if root != [] && Under(root, later) {
      UnderStep(root, later);
      UnderStep(root, outside);
      if root[0] == outside[0] {
        SubtreeContiguous(root[1..], outside[1..], later[1..]);
      }
    }
  }
}
