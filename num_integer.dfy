/** Greatest common divisors and least common multiples, as the
    `num::integer::lcm` call of day 20 computes them, with the facts that
    make the result the least common multiple. */
module NumInteger {

  /** `d` is a positive divisor of `n`. */
  predicate Divides(d: nat, n: nat)
  {
    d > 0 && n % d == 0
  }

  lemma {:induction false} MulAtLeast(g: nat, d: int)
    requires g > 0 && d >= 1
    ensures g * d >= g
  {
  }

  lemma {:induction false} MultipleOf(g: nat, c: int)
    requires g > 0 && c >= 0
    ensures Divides(g, g * c) && (g * c) / g == c
  {
    var q, r := (g * c) / g, (g * c) % g;
    assert g * (c - q) == r;
    if c - q >= 1 {
      MulAtLeast(g, c - q);
    } else if c - q <= -1 {
      MulAtLeast(g, q - c);
    }
  }

  lemma {:induction false} DivModSplit(a: nat, b: nat)
    requires b > 0
    ensures a == b * (a / b) + a % b
  {
  }

  /** A positive divisor's cofactor. */
  lemma {:induction false} Cofactor(d: nat, n: nat) returns (k: nat)
    requires Divides(d, n)
    ensures n == d * k
  {
    DivModSplit(n, d);
    k := n / d;
  }

  lemma {:induction false} ProductOfNats(a: nat, b: nat)
    ensures a * b >= 0
  {
  }

  lemma {:induction false} Distrib(m: int, u: int, v: int)
    ensures m * (u + v) == m * u + m * v
  {
  }

  /** Euclid's algorithm. */
  function Gcd(a: nat, b: nat): (g: nat)
    ensures a > 0 || b > 0 ==> g > 0
    decreases b
  {
    if b == 0 then a else Gcd(b, a % b)
  }

  lemma {:induction false} GcdDivides(a: nat, b: nat)
    requires a > 0 || b > 0
    ensures Divides(Gcd(a, b), a) && Divides(Gcd(a, b), b)
    decreases b
  {
    if b > 0 {
      GcdDivides(b, a % b);
      var g := Gcd(b, a % b);
      var x := Cofactor(g, b);
      var y := Cofactor(g, a % b);
      DivModSplit(a, b);
      var c := x * (a / b) + y;
      assert a == g * c by {
        assert b * (a / b) == g * (x * (a / b));
      }
      MultipleOf(g, c);
    }
  }

  /** Bezout's identity: the gcd is an integer combination of the two. */
  lemma {:induction false} Bezout(a: nat, b: nat) returns (s: int, t: int)
    ensures Gcd(a, b) == a * s + b * t
    decreases b
  {
    if b == 0 {
      s, t := 1, 0;
    } else {
      var s', t' := Bezout(b, a % b);
      DivModSplit(a, b);
      s, t := t', s' - (a / b) * t';
      assert Gcd(a, b) == b * s' + (a - b * (a / b)) * t';
    }
  }

  /** `num::integer::lcm`: zero when both are zero, otherwise
      `a * (b / gcd(a, b))`. */
  function Lcm(a: nat, b: nat): nat
  {
    if a == 0 && b == 0 then 0
    else
      var q: nat := b / Gcd(a, b);
      ProductOfNats(a, q);
      a * q
  }

  /** For positive arguments the result is a positive common multiple. */
  lemma {:induction false} LcmCommon(a: nat, b: nat)
    requires a > 0 && b > 0
    ensures Lcm(a, b) > 0 && Divides(a, Lcm(a, b)) && Divides(b, Lcm(a, b))
    ensures Gcd(a, b) * Lcm(a, b) == a * b
  {
    var g := Gcd(a, b);
    GcdDivides(a, b);
    var x := Cofactor(g, a);
    var y := Cofactor(g, b);
    MultipleOf(g, y);
    assert y >= 1;
    assert x >= 1;
    var l := Lcm(a, b);
    assert l == a * y;
    MulAtLeast(a, y);
    MultipleOf(a, y);
    assert l == b * x by {
      assert a * y == g * x * y == b * x;
    }
    MultipleOf(b, x);
    assert g * l == a * b by {
      assert g * (a * y) == a * (g * y);
    }
  }

  /** If `m` is a multiple of `a` and of `b`, then `m * gcd` is a multiple
      of `a * b`, through Bezout's coefficients. */
  lemma {:induction false} ScaledMultiple(a: int, b: int, m: int, p: int, q: int, s: int, t: int)
    requires m == a * p && m == b * q
    ensures m * (a * s + b * t) == (a * b) * (q * s + p * t)
  {
    calc {
      m * (a * s + b * t);
      { Distrib(m, a * s, b * t); }
      m * (a * s) + m * (b * t);
      { assert m * (a * s) == (b * q) * (a * s) == (a * b) * (q * s);
        assert m * (b * t) == (a * p) * (b * t) == (a * b) * (p * t); }
      (a * b) * (q * s) + (a * b) * (p * t);
      { Distrib(a * b, q * s, p * t); }
      (a * b) * (q * s + p * t);
    }
  }

  lemma {:induction false} Cancel(g: int, x: int, y: int)
    requires g > 0 && g * x == g * y
    ensures x == y
  {
    Distrib(g, x, -y);
    if x - y >= 1 {
      MulAtLeast(g, x - y);
    } else if y - x >= 1 {
      MulAtLeast(g, y - x);
      Distrib(g, y, -x);
    }
  }

  lemma {:induction false} DividesFromIdentity(g: nat, l: nat, m: nat, ab: int, k: int)
    requires g > 0 && l > 0 && g * l == ab && m * g == ab * k
    ensures Divides(l, m)
  {
    assert g * m == g * (l * k) by {
      assert ab * k == (g * l) * k == g * (l * k);
    }
    Cancel(g, m, l * k);
    if k < 0 {
      MulAtLeast(l, -k);
    }
    MultipleOf(l, k);
  }

  /** ... and it divides every common multiple: it is the least one. */
  lemma {:induction false} LcmLeast(a: nat, b: nat, m: nat)
    requires a > 0 && b > 0 && Divides(a, m) && Divides(b, m)
    ensures Divides(Lcm(a, b), m)
  {
    LcmCommon(a, b);
    var p := Cofactor(a, m);
    var q := Cofactor(b, m);
    var s, t := Bezout(a, b);
    ScaledMultiple(a, b, m, p, q, s, t);
    DividesFromIdentity(Gcd(a, b), Lcm(a, b), m, a * b, q * s + p * t);
  }

  /** The fold in `part_two`: start at 1 and take the lcm with each value. */
  function LcmOf(s: seq<nat>): nat
  {
    if s == [] then 1 else Lcm(LcmOf(s[..|s| - 1]), s[|s| - 1])
  }

  lemma {:induction false} DividesTransitive(a: nat, b: nat, c: nat)
    requires Divides(a, b) && Divides(b, c)
    ensures Divides(a, c)
  {
    var x := Cofactor(a, b);
    var y := Cofactor(b, c);
    assert c == a * (x * y);
    MultipleOf(a, x * y);
  }

  /** For positive values the fold is their least common multiple: each
      value divides it, and it divides every common multiple. */
  lemma {:induction false} LcmOfIsLeast(s: seq<nat>, m: nat)
    requires forall i :: 0 <= i < |s| ==> s[i] > 0
    ensures LcmOf(s) > 0
    ensures forall i :: 0 <= i < |s| ==> Divides(s[i], LcmOf(s))
    ensures (forall i :: 0 <= i < |s| ==> Divides(s[i], m)) ==> Divides(LcmOf(s), m)
  {
    if s == [] {
      MultipleOf(1, m);
    } else {
      var init, last := s[..|s| - 1], s[|s| - 1];
      LcmOfIsLeast(init, m);
      var l := LcmOf(init);
      LcmCommon(l, last);
      if Divides(l, m) && Divides(last, m) {
        LcmLeast(l, last, m);
      }
      forall i | 0 <= i < |s|
        ensures Divides(s[i], LcmOf(s))
      {
        if i < |s| - 1 {
          assert s[i] == init[i];
          DividesTransitive(s[i], l, LcmOf(s));
        }
      }
      if forall i :: 0 <= i < |s| ==> Divides(s[i], m) {
        assert forall i :: 0 <= i < |init| ==> Divides(init[i], m) by {
          forall i | 0 <= i < |init|
            ensures Divides(init[i], m)
          {
            assert init[i] == s[i];
          }
        }
      }
    }
  }
}
