/** The stable per-site index every derived address is built from. */
module SiteIndex {
  const MODULUS := 197

  /** The base-31 number a name spells, most significant code point first, at full width. */
  function Polynomial(name: string): nat {
    if |name| == 0 then 0 else 31 * Polynomial(name[..|name| - 1]) + name[|name| - 1] as nat
  }

  /** The index of a name, without the rolling hash. */
  function Index(name: string): (idx: nat)
    ensures 2 <= idx <= 198
  {
    2 + Polynomial(name) % MODULUS
  }

  /** One step of the rolling hash. */
  function HashStep(h: nat, c: nat): nat {
    (h * 31 + c) % MODULUS
  }

  method Compute(name: string) returns (idx: nat)
    ensures idx == Index(name) && idx == 2 + Polynomial(name) % 197
  {
    var h: nat := 0;
    for i := 0 to |name|
      invariant h == Polynomial(name[..i]) % MODULUS
    {
      assert name[..i + 1][..i] == name[..i];
      StepModulo(Polynomial(name[..i]), name[i] as nat);
      h := (h * 31 + name[i] as nat) % MODULUS;
    }
    assert name[..|name|] == name;
    return h + 2;
  }

  lemma StepModulo(a: nat, c: nat)
    ensures HashStep(a % MODULUS, c) == (31 * a + c) % MODULUS
  {
    var q, r := a / MODULUS, a % MODULUS;
    AddMultiple(31 * r + c, 31 * q);
    assert 31 * a + c == 31 * r + c + MODULUS * (31 * q);
  }

  lemma AddMultiple(x: int, k: int)
    ensures (x + MODULUS * k) % MODULUS == x % MODULUS
  {
    var y := x + MODULUS * k;
    assert y == MODULUS * (x / MODULUS + k) + x % MODULUS;
    Remainder(y, x / MODULUS + k, x % MODULUS);
  }

  lemma Remainder(y: int, q: int, r: int)
    requires y == MODULUS * q + r && 0 <= r < MODULUS
    ensures y % MODULUS == r
  {
  }

  /** The step that undoes `HashStep`: 89 is the inverse of 31 modulo 197. */
  function UndoStep(r: nat, c: nat): nat {
    (89 * (r - c)) % MODULUS
  }

  /** Every character permutes the 197 residues: undoing and redoing a step are the identity. */
  lemma StepPermutes(r: nat, c: nat)
    requires r < MODULUS
    ensures UndoStep(HashStep(r, c), c) == r
    ensures HashStep(UndoStep(r, c), c) == r
  {
    var q := (31 * r + c) / MODULUS;
    var h := HashStep(r, c);
    assert 89 * (h - c) == MODULUS * (14 * r - 89 * q) + r;
    Remainder(89 * (h - c), 14 * r - 89 * q, r);
    var p := (89 * (r - c)) / MODULUS;
    var u := UndoStep(r, c);
    assert 31 * u + c == MODULUS * (14 * r - 14 * c - 31 * p) + r;
    Remainder(31 * u + c, 14 * r - 14 * c - 31 * p, r);
  }

  /** Text appended to two names neither makes nor breaks their coincidence. */
  lemma {:induction false} SuffixKeeps(u: string, v: string, suffix: string)
    ensures Index(u + suffix) == Index(v + suffix) <==> Polynomial(u) % MODULUS == Polynomial(v) % MODULUS
  {
    if |suffix| == 0 {
      assert u + suffix == u && v + suffix == v;
    } else {
      var front, c := suffix[..|suffix| - 1], suffix[|suffix| - 1];
      SuffixKeeps(u, v, front);
      var a, b := Polynomial(u + front), Polynomial(v + front);
      Appended(u + front, c);
      Appended(v + front, c);
      assert u + front + [c] == u + suffix && v + front + [c] == v + suffix;
      SameStep(a, b, c as nat);
    }
  }

  lemma SameStep(a: nat, b: nat, c: nat)
    ensures (31 * a + c) % MODULUS == (31 * b + c) % MODULUS <==> a % MODULUS == b % MODULUS
  {
    StepModulo(a, c);
    StepModulo(b, c);
    StepPermutes(a % MODULUS, c);
    StepPermutes(b % MODULUS, c);
  }

  lemma Appended(name: string, c: char)
    ensures Polynomial(name + [c]) == 31 * Polynomial(name) + c as nat
  {
    assert (name + [c])[..|name|] == name;
  }

  /** Without a name the index is 2, and each character turns a remainder r into 31 r and its code point, modulo 197. */
  lemma Rolls(name: string, c: char)
    ensures Index("") == 2
    ensures Index(name + [c]) == 2 + (31 * (Index(name) - 2) + c as nat) % 197
  {
    Appended(name, c);
    StepModulo(Polynomial(name), c as nat);
  }

  /**
   * Names that differ in one place share an index exactly when the two code points are congruent; so never when both
   * are below 197, as in every name the API server admits.
   */
  lemma OneCharacterApart(prefix: string, x: char, y: char, suffix: string)
    ensures Index(prefix + [x] + suffix) == Index(prefix + [y] + suffix) <==> x as nat % MODULUS == y as nat % MODULUS
  {
    Appended(prefix, x);
    Appended(prefix, y);
    Congruent(31 * Polynomial(prefix) + x as nat, 31 * Polynomial(prefix) + y as nat, x as nat, y as nat);
    SuffixKeeps(prefix + [x], prefix + [y], suffix);
  }

  lemma Congruent(m: nat, n: nat, x: nat, y: nat)
    requires m - n == x - y
    ensures m % MODULUS == n % MODULUS <==> x % MODULUS == y % MODULUS
  {
    if m % MODULUS == n % MODULUS {
      CloseResidues(m, n);
      AddMultiple(y, m / MODULUS - n / MODULUS);
    }
    if x % MODULUS == y % MODULUS {
      CloseResidues(x, y);
      AddMultiple(n, x / MODULUS - y / MODULUS);
    }
  }

  /** Equal remainders are a multiple of the modulus apart. */
  lemma CloseResidues(m: nat, n: nat)
    requires m % MODULUS == n % MODULUS
    ensures m - n == MODULUS * (m / MODULUS - n / MODULUS)
  {
  }

  lemma DigitDistance(high: int, low: int, k: int)
    requires 31 * high + low == MODULUS * k && -9 <= high <= 9 && -9 <= low <= 9
    ensures high == 0 && low == 0
  {
  }

  /** Swapping two neighbours keeps the index exactly when they are congruent: 30 is invertible modulo 197. */
  lemma AdjacentSwap(prefix: string, x: char, y: char, suffix: string)
    ensures Index(prefix + [x, y] + suffix) == Index(prefix + [y, x] + suffix) <==>
      x as nat % MODULUS == y as nat % MODULUS
  {
    assert prefix + [x, y] == prefix + [x] + [y] && prefix + [y, x] == prefix + [y] + [x];
    Appended(prefix, x);
    Appended(prefix + [x], y);
    Appended(prefix, y);
    Appended(prefix + [y], x);
    Swapped(Polynomial(prefix + [x, y]), Polynomial(prefix + [y, x]), x as nat, y as nat);
    SuffixKeeps(prefix + [x, y], prefix + [y, x], suffix);
  }

  lemma Swapped(m: nat, n: nat, x: nat, y: nat)
    requires m - n == 30 * (x - y)
    ensures m % MODULUS == n % MODULUS <==> x % MODULUS == y % MODULUS
  {
    if m % MODULUS == n % MODULUS {
      CloseResidues(m, n);
      var k := m / MODULUS - n / MODULUS;
      assert x - y == MODULUS * (46 * k - 7 * (x - y));
      AddMultiple(y, 46 * k - 7 * (x - y));
    }
    if x % MODULUS == y % MODULUS {
      CloseResidues(x, y);
      AddMultiple(n, 30 * (x / MODULUS - y / MODULUS));
    }
  }

  /** All hundred names with one prefix and a two-digit suffix have different indices. */
  lemma TwoDigitSuffixes(prefix: string, x: char, y: char, u: char, v: char)
    requires '0' <= x <= '9' && '0' <= y <= '9' && '0' <= u <= '9' && '0' <= v <= '9'
    requires (x, y) != (u, v)
    ensures Index(prefix + [x, y]) != Index(prefix + [u, v])
  {
    assert prefix + [x, y] == prefix + [x] + [y] && prefix + [u, v] == prefix + [u] + [v];
    Appended(prefix, x);
    Appended(prefix + [x], y);
    Appended(prefix, u);
    Appended(prefix + [u], v);
    var m, n := Polynomial(prefix + [x, y]), Polynomial(prefix + [u, v]);
    if m % MODULUS == n % MODULUS {
      CloseResidues(m, n);
      DigitDistance(x as int - u as int, y as int - v as int, m / MODULUS - n / MODULUS);
    }
  }

  /** The index is not injective: these two names share one, and with it every derived range. */
  lemma NamesCanShareAnIndex()
    ensures Index("a") == Index("ev")
  {
    Appended("", 'a');
    Appended("", 'e');
    Appended("e", 'v');
    assert "" + ['a'] == "a" && "" + ['e'] == "e" && "e" + ['v'] == "ev";
  }
}
