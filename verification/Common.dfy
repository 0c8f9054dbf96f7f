/** Sequence concatenation, modular slots and byte order: what every component shares. */
module Common {
  datatype Option<+T> = None | Some(value: T)

  type byte = x: int | 0 <= x < 256

  function Min(a: int, b: int): int { if a < b then a else b }

  // ---------------------------------------------------------------- concatenation

  function Flatten<T>(ss: seq<seq<T>>): seq<T> {
    if ss == [] then [] else ss[0] + Flatten(ss[1..])
  }

  lemma {:induction false} FlattenAppend<T>(a: seq<seq<T>>, b: seq<seq<T>>)
    ensures Flatten(a + b) == Flatten(a) + Flatten(b)
  {
    if a == [] {
      assert a + b == b;
    } else {
      FlattenAppend(a[1..], b);
      Assoc(a[0], Flatten(a[1..]), Flatten(b));
      assert (a + b)[1..] == a[1..] + b;
    }
  }

  lemma FlattenSnoc<T>(a: seq<seq<T>>, x: seq<T>)
    ensures Flatten(a + [x]) == Flatten(a) + x
  {
    FlattenAppend(a, [x]);
    assert Flatten([x]) == x + Flatten([x][1..]);
  }

  lemma FlattenTake<T>(ss: seq<seq<T>>, i: nat)
    requires i < |ss|
    ensures Flatten(ss[..i + 1]) == Flatten(ss[..i]) + ss[i]
  {
    assert ss[..i + 1] == ss[..i] + [ss[i]];
    FlattenSnoc(ss[..i], ss[i]);
  }

  lemma FlattenPrefix<T>(ss: seq<seq<T>>, i: nat)
    requires i <= |ss|
    ensures Flatten(ss[..i]) <= Flatten(ss)
  {
    assert ss == ss[..i] + ss[i..];
    FlattenAppend(ss[..i], ss[i..]);
  }

  lemma Assoc<T>(x: seq<T>, y: seq<T>, z: seq<T>)
    ensures x + y + z == x + (y + z)
  {
  }

  /** A concatenation taken apart again. */
  lemma Apart<T>(x: seq<T>, y: seq<T>)
    ensures (x + y)[..|x|] == x && (x + y)[|x|..] == y
  {
  }

  /** The three parts of a concatenation. */
  lemma Fields<T>(a: seq<T>, b: seq<T>, c: seq<T>)
    ensures var s, n := a + b + c, |a| + |b|;
      s[..n] == a + b && s[..|a|] == a && s[|a|..n] == b && s[n..] == c
  {
  }

  // ---------------------------------------------------------------- ring slots

  lemma MulBound(n: nat, d: int)
    ensures d >= 1 ==> n * d >= n
    ensures d <= -1 ==> n * d <= -(n as int)
    ensures d == 0 ==> n * d == 0
  {
  }

  lemma ModUnique(x: int, n: nat, q: int, r: int)
    requires n > 0 && 0 <= r < n && x == n * q + r
    ensures x % n == r && x / n == q
  {
    var d := x / n - q;
    assert n * d == n * (x / n) - n * q;
    MulBound(n, d);
  }

  lemma SlotSucc(x: int, n: nat)
    requires n > 0
    ensures (x % n + 1) % n == (x + 1) % n
  {
    var q, r := x / n, x % n;
    if r + 1 < n {
      ModUnique(x + 1, n, q, r + 1);
      ModUnique(r + 1, n, 0, r + 1);
    } else {
      assert x + 1 == n * (q + 1);
      ModUnique(x + 1, n, q + 1, 0);
      ModUnique(n, n, 1, 0);
    }
  }

  /** Two positions less than one lap apart never share a slot. */
  lemma SlotsDiffer(x: int, y: int, n: nat)
    requires x < y < x + n
    ensures x % n != y % n
  {
    var d := y / n - x / n;
    assert y - x == n * d + (y % n - x % n);
    MulBound(n, d);
  }

  lemma SlotLap(x: int, n: nat)
    requires n > 0
    ensures (x + n) % n == x % n
  {
    assert x + n == n * (x / n + 1) + x % n;
    ModUnique(x + n, n, x / n + 1, x % n);
  }

  // ---------------------------------------------------------------- byte order

  function Pow256(k: nat): (p: nat)
    ensures p > 0
  {
    if k == 0 then 1 else 256 * Pow256(k - 1)
  }

  /** The `k` low-order bytes of `v`, least significant first. */
  function ToLe(v: nat, k: nat): (s: seq<byte>)
    ensures |s| == k
  {
    if k == 0 then [] else [v % 256] + ToLe(v / 256, k - 1)
  }

  function FromLe(s: seq<byte>): nat {
    if s == [] then 0 else s[0] + 256 * FromLe(s[1..])
  }

  lemma {:induction false} LeRoundTrip(v: nat, k: nat)
    requires v < Pow256(k)
    ensures FromLe(ToLe(v, k)) == v
  {
    if k > 0 {
      LeRoundTrip(v / 256, k - 1);
      assert ToLe(v, k)[1..] == ToLe(v / 256, k - 1);
    }
  }

  lemma {:induction false} FromLeBelow(s: seq<byte>)
    ensures FromLe(s) < Pow256(|s|)
    ensures ToLe(FromLe(s), |s|) == s
  {
    if s != [] {
      FromLeBelow(s[1..]);
      assert s == [s[0]] + s[1..];
    }
  }

  lemma Distribute(a: int, b: int, w: int, r: int)
    ensures a * (b * w + r) == (a * b) * w + a * r
  {
    assert a * (b * w + r) == a * (b * w) + a * r;
    assert a * (b * w) == (a * b) * w;
  }

  lemma RemainderFits(a: nat, b: nat, r: nat, r0: nat)
    requires r < b && r0 < a
    ensures a * r + r0 < a * b
  {
    var d := b - 1 - r;
    assert a * (r + 1 + d) == a * r + a + a * d;
    MulBound(a, d);
  }

  /** Dividing twice is dividing by the product. */
  lemma DivTwice(v: nat, a: nat, b: nat)
    requires a > 0 && b > 0
    ensures a * b > 0 && v / a / b == v / (a * b)
  {
    var q, r0 := v / a, v % a;
    var w, r := q / b, q % b;
    Distribute(a, b, w, r);
    RemainderFits(a, b, r, r0);
    MulBound(a, r);
    DivIs(v, a * b, w, a * r + r0);
  }

  lemma DivIs(v: int, n: nat, w: int, r: int)
    requires 0 <= r < n && v == n * w + r
    ensures v / n == w
  {
    ModUnique(v, n, w, r);
  }

  /** Byte `i` of a number, counted from the least significant one. */
  lemma {:induction false} LeDigit(v: nat, k: nat, i: nat)
    requires i < k
    ensures ToLe(v, k)[i] == v / Pow256(i) % 256
    decreases k
  {
    if i > 0 {
      LeDigit(v / 256, k - 1, i - 1);
      DivTwice(v, 256, Pow256(i - 1));
    }
  }

  lemma Pow256Values()
    ensures Pow256(0) == 1 && Pow256(1) == 0x100 && Pow256(2) == 0x1_0000 && Pow256(3) == 0x100_0000
    ensures Pow256(4) == 0x1_0000_0000 && Pow256(5) == 0x100_0000_0000 && Pow256(6) == 0x1_0000_0000_0000
    ensures Pow256(7) == 0x100_0000_0000_0000 && Pow256(8) == 0x1_0000_0000_0000_0000
  {
    assert Pow256(2) == 256 * Pow256(1);
    assert Pow256(4) == 256 * Pow256(3) == 256 * 256 * Pow256(2);
    assert Pow256(6) == 256 * Pow256(5) == 256 * 256 * Pow256(4);
    assert Pow256(8) == 256 * Pow256(7) == 256 * 256 * Pow256(6);
  }
}
