/**
 The dotted text form of object identifiers.  The walk decides scope on text, by testing
 `oid_str.startswith(prefix + ".")`; this module proves that the test is exact.
 */
module DottedOid {
  import opened OidOrder

  function Digit(d: nat): char
    requires d < 10
  {
    "0123456789"[d]
  }

  /** Decimal form of one component. */
  function Decimal(n: nat): (s: string)
    ensures s != ""
    ensures '.' !in s
  {
    if n < 10 then [Digit(n)] else Decimal(n / 10) + [Digit(n % 10)]
  }

  function Dotted(oid: Oid): string {
    if oid == [] then ""
    else if |oid| == 1 then Decimal(oid[0])
    else Decimal(oid[0]) + "." + Dotted(oid[1..])
  }

  /** `s.startswith(p)` */
  predicate StartsWith(s: string, p: string) {
    p <= s
  }

  /** The part of `s` before its first dot; all of `s` when it has none. */
  function BeforeDot(s: string): string {
    if s == "" || s[0] == '.' then "" else [s[0]] + BeforeDot(s[1..])
  }

  lemma DigitInjective(a: nat, b: nat)
    requires a < 10 && b < 10 && Digit(a) == Digit(b)
    ensures a == b
  {
  }

  lemma {:induction false} DecimalInjective(a: nat, b: nat)
    requires Decimal(a) == Decimal(b)
    ensures a == b
  {
    var s, t := Decimal(a), Decimal(b);
    DigitInjective(a % 10, b % 10) by {
      assert s[|s| - 1] == Digit(a % 10) && t[|t| - 1] == Digit(b % 10);
    }
    if a >= 10 && b >= 10 {
      assert s[..|s| - 1] == Decimal(a / 10) && t[..|t| - 1] == Decimal(b / 10);
      DecimalInjective(a / 10, b / 10);
    }
  }

  lemma {:induction false} BeforeDotOfJoin(a: string, x: string)
    requires '.' !in a
    ensures BeforeDot(a) == a
    ensures BeforeDot(a + "." + x) == a
  {
    if a != "" {
      assert (a + "." + x)[1..] == a[1..] + "." + x;
      BeforeDotOfJoin(a[1..], x);
    }
  }

  lemma {:induction false} BeforeDotOfPrefix(s: string, t: string)
    requires s <= t && '.' in s
    ensures '.' in t && BeforeDot(s) == BeforeDot(t)
  {
    if s[0] != '.' { BeforeDotOfPrefix(s[1..], t[1..]); }
  }

  /** A dotted text is a prefix of another only if their first components agree. */
  lemma FirstComponent(a: string, b: string, x: string, y: string)
    requires '.' !in a && '.' !in b
    requires a + "." + x <= b + "." + y
    ensures a == b && x <= y
  {
    var l, r := a + "." + x, b + "." + y;
    assert l[|a|] == '.';
    BeforeDotOfPrefix(l, r);
    BeforeDotOfJoin(a, x);
    BeforeDotOfJoin(b, y);
    assert l[|a| + 1..] == x && r[|a| + 1..] == y;
  }

  /** The scope test of `walk` holds exactly for the identifiers strictly below the root. */
  lemma {:induction false} ScopeTestIsExact(root: Oid, oid: Oid)
    requires root != []
    ensures StartsWith(Dotted(oid), Dotted(root) + ".") <==> Under(root, oid)
  {
    var p, s := Dotted(root) + ".", Dotted(oid);
    assert p[|p| - 1] == '.';
    if |oid| <= 1 {
      assert '.' !in s;
      assert !(p <= s) by {
        if p <= s { BeforeDotOfPrefix(p, s); }
      }
    } else {
      UnderStep(root, oid);
      var rest := Dotted(oid[1..]);
      var tail := if |root| == 1 then "" else Dotted(root[1..]) + ".";
      assert p == Decimal(root[0]) + "." + tail;
      if p <= s {
        FirstComponent(Decimal(root[0]), Decimal(oid[0]), tail, rest);
        DecimalInjective(root[0], oid[0]);
      }
      if root[0] == oid[0] && tail <= rest {
        assert p == s[..|p|];
      }
      if |root| > 1 {
        ScopeTestIsExact(root[1..], oid[1..]);
      }
    }
  }
}
