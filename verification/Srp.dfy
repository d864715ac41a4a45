/** SRP-6a over any modulus: the server's session secret is the client's. */
module Srp {

  function Pow(b: int, e: nat): int {
    if e == 0 then 1 else b * Pow(b, e - 1)
  }

  /** `big.Int.Exp` with a modulus. */
  function Exp(b: int, e: nat, n: nat): int
    requires n > 1
  {
    Pow(b, e) % n
  }

  datatype Group = Group(n: nat, g: int, k: int)

  predicate ValidGroup(p: Group) { p.n > 1 }

  /** The stored verifier for a private value x. */
  function Verifier(p: Group, x: nat): int
    requires ValidGroup(p)
  {
    Exp(p.g, x, p.n)
  }

  /** `computeSRPB`. */
  function ServerPublic(p: Group, v: int, b: nat): int
    requires ValidGroup(p)
  {
    (p.k * v + Exp(p.g, b, p.n)) % p.n
  }

  /** The server's secret, from the client's public value as sent. */
  function ServerSecret(p: Group, pub: int, v: int, u: nat, b: nat): int
    requires ValidGroup(p)
  {
    var vu := Exp(v, u, p.n);
    var avu := (pub * vu) % p.n;
    Exp(avu, b, p.n)
  }

  /** The client's secret, as section 2.6 of RFC 5054 has it. */
  function ClientSecret(p: Group, serverPublic: int, x: nat, u: nat, a: nat): int
    requires ValidGroup(p)
  {
    Pow(serverPublic - p.k * Exp(p.g, x, p.n), a + u * x) % p.n
  }

  // ---- congruence

  predicate Congruent(a: int, b: int, n: nat)
    requires n > 0
  {
    a % n == b % n
  }

  lemma {:induction false} ModShift(x: int, q: int, n: nat)
    requires n > 0
    ensures (x + q * n) % n == x % n
    decreases if q < 0 then -q else q
  {
    if q > 0 {
      ModShift(x, q - 1, n);
      assert x + q * n == (x + (q - 1) * n) + n;
      ModOnce(x + (q - 1) * n, n);
    } else if q < 0 {
      ModShift(x, q + 1, n);
      assert (x + q * n) + n == x + (q + 1) * n;
      ModOnce(x + q * n, n);
    }
  }

  lemma ModOnce(x: int, n: nat)
    requires n > 0
    ensures (x + n) % n == x % n
  {
    var q, r := x / n, x % n;
    assert x + n == (q + 1) * n + r;
    DivUnique(x + n, q + 1, r, n);
  }

  lemma DivUnique(x: int, q: int, r: int, n: nat)
    requires n > 0 && x == q * n + r && 0 <= r < n
    ensures x % n == r
  {
    var q', r' := x / n, x % n;
    assert (q - q') * n == r' - r;
    SmallMultiple(q - q', n);
  }

  lemma SmallMultiple(m: int, n: int)
    requires -n < m * n < n
    ensures m == 0
  {
  }

  /** x is congruent to y if they differ by a multiple. */
  lemma Multiple(x: int, y: int, q: int, n: nat)
    requires n > 0 && x == y + q * n
    ensures Congruent(x, y, n)
  {
    ModShift(y, q, n);
  }

  lemma Differ(x: int, y: int, n: nat) returns (q: int)
    requires n > 0 && Congruent(x, y, n)
    ensures x == y + q * n
  {
    q := x / n - y / n;
    var a, b := x / n, y / n;
    assert x == a * n + x % n && y == b * n + y % n;
    assert (a - b) * n == a * n - b * n;
  }

  lemma CongruentSum(a: int, b: int, c: int, d: int, n: nat)
    requires n > 0 && Congruent(a, b, n) && Congruent(c, d, n)
    ensures Congruent(a + c, b + d, n) && Congruent(a - c, b - d, n)
  {
    var q := Differ(a, b, n);
    var r := Differ(c, d, n);
    assert q * n + r * n == (q + r) * n && q * n - r * n == (q - r) * n;
    Multiple(a + c, b + d, q + r, n);
    Multiple(a - c, b - d, q - r, n);
  }

  lemma CongruentProduct(a: int, b: int, c: int, d: int, n: nat)
    requires n > 0 && Congruent(a, b, n) && Congruent(c, d, n)
    ensures Congruent(a * c, b * d, n)
  {
    var q := Differ(a, b, n);
    var r := Differ(c, d, n);
    ProductDiffers(b, d, q, r, n);
    Multiple(a * c, b * d, b * r + q * d + q * r * n, n);
  }

  lemma ProductDiffers(b: int, d: int, q: int, r: int, n: int)
    ensures (b + q * n) * (d + r * n) == b * d + (b * r + q * d + q * r * n) * n
  {
    calc {
      (b + q * n) * (d + r * n);
      b * d + b * (r * n) + (q * n) * d + (q * n) * (r * n);
      { assert b * (r * n) == b * r * n && (q * n) * d == q * d * n && (q * n) * (r * n) == q * r * n * n; }
      b * d + b * r * n + q * d * n + q * r * n * n;
      b * d + (b * r + q * d + q * r * n) * n;
    }
  }

  lemma {:induction false} CongruentPower(a: int, b: int, e: nat, n: nat)
    requires n > 0 && Congruent(a, b, n)
    ensures Congruent(Pow(a, e), Pow(b, e), n)
  {
    if e > 0 {
      CongruentPower(a, b, e - 1, n);
      CongruentProduct(a, b, Pow(a, e - 1), Pow(b, e - 1), n);
    }
  }

  lemma Reduced(x: int, n: nat)
    requires n > 0
    ensures Congruent(x % n, x, n)
  {
    DivUnique(x % n, 0, x % n, n);
  }

  // ---- laws of powers

  lemma {:induction false} PowSum(b: int, d: nat, e: nat)
    ensures Pow(b, d + e) == Pow(b, d) * Pow(b, e)
  {
    if d > 0 {
      PowSum(b, d - 1, e);
      assert d + e - 1 == (d - 1) + e;
      assert b * (Pow(b, d - 1) * Pow(b, e)) == (b * Pow(b, d - 1)) * Pow(b, e);
    }
  }

  lemma {:induction false} PowPow(b: int, d: nat, e: nat)
    ensures d * e >= 0 && Pow(Pow(b, d), e) == Pow(b, d * e)
  {
    if e > 0 {
      PowPow(b, d, e - 1);
      assert d * e == d + d * (e - 1);
      PowSum(b, d, d * (e - 1));
    } else {
      assert d * e == 0;
    }
  }

  // ---- agreement

  /** (A v^u)^b is g^(b (a + u x)). */
  lemma ServerSide(p: Group, pub: int, x: nat, u: nat, a: nat, b: nat)
    requires ValidGroup(p) && Congruent(pub, Pow(p.g, a), p.n)
    ensures u * x >= 0 && (a + u * x) * b >= 0
    ensures Congruent(ServerSecret(p, pub, Verifier(p, x), u, b), Pow(p.g, (a + u * x) * b), p.n)
  {
    var n, g := p.n, p.g;
    var v := Verifier(p, x);
    Reduced(Pow(g, x), n);
    CongruentPower(v, Pow(g, x), u, n);
    PowPow(g, x, u);
    assert x * u == u * x;
    var vu := Exp(v, u, n);
    Reduced(Pow(v, u), n);
    CongruentProduct(pub, Pow(g, a), vu, Pow(g, u * x), n);
    PowSum(g, a, u * x);
    var avu := (pub * vu) % n;
    Reduced(pub * vu, n);
    CongruentPower(avu, Pow(g, a + u * x), b, n);
    PowPow(g, a + u * x, b);
    Reduced(Pow(avu, b), n);
  }

  /** (B - k g^x)^(a + u x) is the same power. */
  lemma ClientSide(p: Group, x: nat, u: nat, a: nat, b: nat)
    requires ValidGroup(p)
    ensures u * x >= 0 && (a + u * x) * b >= 0
    ensures Congruent(ClientSecret(p, ServerPublic(p, Verifier(p, x), b), x, u, a), Pow(p.g, (a + u * x) * b), p.n)
  {
    var n, g := p.n, p.g;
    var kv, gb := p.k * Verifier(p, x), Exp(g, b, n);
    var pub := ServerPublic(p, Verifier(p, x), b);
    Reduced(kv + gb, n);
    CongruentSum(pub, kv + gb, kv, kv, n);
    Reduced(Pow(g, b), n);
    assert Congruent(pub - kv, Pow(g, b), n);
    PowPow(g, a + u * x, b);
    var e: nat := a + u * x;
    CongruentPower(pub - kv, Pow(g, b), e, n);
    PowPow(g, b, e);
    assert b * e == e * b;
    Reduced(Pow(pub - kv, e), n);
  }

  lemma SecretsReduced(p: Group, s: int, t: int)
    requires ValidGroup(p) && Congruent(s, t, p.n) && 0 <= s < p.n && 0 <= t < p.n
    ensures s == t
  {
    DivUnique(s, 0, s, p.n);
    DivUnique(t, 0, t, p.n);
  }

  /** Client and server arrive at the same secret, whatever representative of g^a the
      client sends and whatever the group, the scrambler u and the private values are. */
  lemma Agreement(p: Group, pub: int, x: nat, u: nat, a: nat, b: nat)
    requires ValidGroup(p) && Congruent(pub, Pow(p.g, a), p.n)
    ensures var v := Verifier(p, x);
            ServerSecret(p, pub, v, u, b) == ClientSecret(p, ServerPublic(p, v, b), x, u, a)
  {
    hide ServerSecret, ClientSecret, ServerPublic, Verifier, Congruent;
    ServerSide(p, pub, x, u, a, b);
    ClientSide(p, x, u, a, b);
    SecretsInRange(p, pub, x, u, a, b);
    CongruentTransitive(ServerSecret(p, pub, Verifier(p, x), u, b), Pow(p.g, (a + u * x) * b),
                        ClientSecret(p, ServerPublic(p, Verifier(p, x), b), x, u, a), p.n);
    SecretsReduced(p, ServerSecret(p, pub, Verifier(p, x), u, b),
                   ClientSecret(p, ServerPublic(p, Verifier(p, x), b), x, u, a));
  }

  lemma CongruentTransitive(x: int, y: int, z: int, n: nat)
    requires n > 0 && Congruent(x, y, n) && Congruent(z, y, n)
    ensures Congruent(x, z, n)
  {
  }

  lemma SecretsInRange(p: Group, pub: int, x: nat, u: nat, a: nat, b: nat)
    requires ValidGroup(p)
    ensures 0 <= ServerSecret(p, pub, Verifier(p, x), u, b) < p.n
    ensures 0 <= ClientSecret(p, ServerPublic(p, Verifier(p, x), b), x, u, a) < p.n
  {
  }

  /** The server recomputes its public value from the stored verifier and gets the one
      it sent, and only the residue of the client's public value matters. */
  lemma OnlyResidueMatters(p: Group, pub: int, pub': int, v: int, u: nat, b: nat)
    requires ValidGroup(p) && Congruent(pub, pub', p.n)
    ensures ServerSecret(p, pub, v, u, b) == ServerSecret(p, pub', v, u, b)
  {
    CongruentProduct(pub, pub', Exp(v, u, p.n), Exp(v, u, p.n), p.n);
  }
}
