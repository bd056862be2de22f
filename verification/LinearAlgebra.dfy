/** Vectors, and matrices as sequences of rows, over the reals. */
module LinearAlgebra {
  type Vec = seq<real>

  type Matrix = seq<Vec>

  predicate Width(m: Matrix, n: nat) {
    forall i | 0 <= i < |m| :: |m[i]| == n
  }

  function Dot(u: Vec, v: Vec): real
    requires |u| == |v|
  {
    if |u| == 0 then 0.0 else u[0] * v[0] + Dot(u[1..], v[1..])
  }

  function Zero(n: nat): (r: Vec)
    ensures |r| == n
  {
    if n == 0 then [] else [0.0] + Zero(n - 1)
  }

  /** a * u + v */
  function Axpy(a: real, u: Vec, v: Vec): (r: Vec)
    requires |u| == |v|
    ensures |r| == |u|
  {
    if |u| == 0 then [] else [a * u[0] + v[0]] + Axpy(a, u[1..], v[1..])
  }

  /** The rows of `m` summed with the weights `w`: the contraction over the first index. */
  function Combine(w: Vec, m: Matrix, n: nat): (r: Vec)
    requires |w| == |m| && Width(m, n)
    ensures |r| == n
  {
    if |w| == 0 then Zero(n) else Axpy(w[0], m[0], Combine(w[1..], m[1..], n))
  }

  /** Every row of `m` against `v`: the contraction over the last index. */
  function Apply(m: Matrix, v: Vec): (r: Vec)
    requires Width(m, |v|)
    ensures |r| == |m|
  {
    if |m| == 0 then [] else [Dot(m[0], v)] + Apply(m[1..], v)
  }

  function ApplyAll(m: Matrix, vs: Matrix, n: nat): (r: Matrix)
    requires Width(m, n) && Width(vs, n)
    ensures |r| == |vs| && Width(r, |m|)
  {
    if |vs| == 0 then [] else [Apply(m, vs[0])] + ApplyAll(m, vs[1..], n)
  }

  // ----- Index by index

  function Column(m: Matrix, n: nat, c: nat): (r: Vec)
    requires Width(m, n) && c < n
    ensures |r| == |m|
  {
    if |m| == 0 then [] else [m[0][c]] + Column(m[1..], n, c)
  }

  lemma {:induction false} ColumnAt(m: Matrix, n: nat, c: nat, i: nat)
    requires Width(m, n) && c < n && i < |m|
    ensures Column(m, n, c)[i] == m[i][c]
  {
    if i > 0 {
      ColumnAt(m[1..], n, c, i - 1);
    }
  }

  /** A vector that is zero but for a one at `i`. */
  function Unit(n: nat, i: nat): (r: Vec)
    requires i < n
    ensures |r| == n
  {
    if i == 0 then [1.0] + Zero(n - 1) else [0.0] + Unit(n - 1, i - 1)
  }

  /** A unit vector picks one component: with linearity this fixes the product. */
  lemma {:induction false} DotUnit(v: Vec, i: nat)
    requires i < |v|
    ensures Dot(Unit(|v|, i), v) == v[i]
  {
    if i == 0 {
      DotZero(v[1..], |v| - 1);
    } else {
      DotUnit(v[1..], i - 1);
    }
  }

  lemma {:induction false} ZeroAt(n: nat, c: nat)
    requires c < n
    ensures Zero(n)[c] == 0.0
  {
    if c > 0 {
      ZeroAt(n - 1, c - 1);
    }
  }

  lemma {:induction false} AxpyAt(a: real, u: Vec, v: Vec, c: nat)
    requires |u| == |v| && c < |u|
    ensures Axpy(a, u, v)[c] == a * u[c] + v[c]
  {
    if c > 0 {
      AxpyAt(a, u[1..], v[1..], c - 1);
    }
  }

  /** Component c of the combination is the sum over the rows of weight times component c. */
  lemma {:induction false} CombineAt(w: Vec, m: Matrix, n: nat, c: nat)
    requires |w| == |m| && Width(m, n) && c < n
    ensures Combine(w, m, n)[c] == Dot(w, Column(m, n, c))
  {
    if |w| == 0 {
      ZeroAt(n, c);
    } else {
      AxpyAt(w[0], m[0], Combine(w[1..], m[1..], n), c);
      CombineAt(w[1..], m[1..], n, c);
    }
  }

  /** Rows of weight zero do not matter. */
  lemma {:induction false} CombineIgnores(w: Vec, a: Matrix, b: Matrix, n: nat)
    requires |w| == |a| == |b| && Width(a, n) && Width(b, n)
    requires forall i | 0 <= i < |w| :: w[i] == 0.0 || a[i] == b[i]
    ensures Combine(w, a, n) == Combine(w, b, n)
  {
    if |w| > 0 {
      CombineIgnores(w[1..], a[1..], b[1..], n);
      var rest := Combine(w[1..], a[1..], n);
      forall c | 0 <= c < n
        ensures Combine(w, a, n)[c] == Combine(w, b, n)[c]
      {
        AxpyAt(w[0], a[0], rest, c);
        AxpyAt(w[0], b[0], rest, c);
      }
    }
  }

  /** More rows of weight zero add nothing. */
  lemma {:induction false} CombineMore(w: Vec, a: Matrix, more: Matrix, n: nat)
    requires |w| == |a| && Width(a, n) && Width(more, n)
    ensures Width(a + more, n) && Combine(w + Zero(|more|), a + more, n) == Combine(w, a, n)
  {
    if |w| > 0 {
      CombineMore(w[1..], a[1..], more, n);
      assert (w + Zero(|more|))[1..] == w[1..] + Zero(|more|) && (a + more)[1..] == a[1..] + more;
    } else {
      assert w + Zero(|more|) == Zero(|more|) && a + more == more;
      CombineZero(more, n);
    }
  }

  lemma {:induction false} CombineZero(m: Matrix, n: nat)
    requires Width(m, n)
    ensures Combine(Zero(|m|), m, n) == Zero(n)
  {
    if |m| > 0 {
      CombineZero(m[1..], n);
      assert Zero(|m|)[1..] == Zero(|m| - 1);
      forall c | 0 <= c < n
        ensures Combine(Zero(|m|), m, n)[c] == Zero(n)[c]
      {
        AxpyAt(0.0, m[0], Zero(n), c);
      }
    }
  }

  lemma {:induction false} ApplyAt(m: Matrix, v: Vec, i: nat)
    requires Width(m, |v|) && i < |m|
    ensures Apply(m, v)[i] == Dot(m[i], v)
  {
    if i > 0 {
      ApplyAt(m[1..], v, i - 1);
    }
  }

  lemma {:induction false} ApplyAllAt(m: Matrix, vs: Matrix, n: nat, i: nat)
    requires Width(m, n) && Width(vs, n) && i < |vs|
    ensures ApplyAll(m, vs, n)[i] == Apply(m, vs[i])
  {
    if i > 0 {
      ApplyAllAt(m, vs[1..], n, i - 1);
    }
  }

  /** Some rows of a product are the product with those rows. */
  lemma ApplyRows(m: Matrix, v: Vec, lo: nat, hi: nat)
    requires Width(m, |v|) && lo <= hi <= |m|
    ensures Apply(m, v)[lo..hi] == Apply(m[lo..hi], v)
  {
    forall i | 0 <= i < hi - lo
      ensures Apply(m, v)[lo..hi][i] == Apply(m[lo..hi], v)[i]
    {
      ApplyAt(m, v, lo + i);
      ApplyAt(m[lo..hi], v, i);
    }
  }

  // ----- Linearity

  lemma {:induction false} DotZero(u: Vec, n: nat)
    requires |u| == n
    ensures Dot(Zero(n), u) == 0.0 && Dot(u, Zero(n)) == 0.0
  {
    if n > 0 {
      DotZero(u[1..], n - 1);
      assert Zero(n)[1..] == Zero(n - 1);
    }
  }

  lemma {:induction false} DotAxpy(a: real, u: Vec, v: Vec, w: Vec)
    requires |u| == |v| == |w|
    ensures Dot(Axpy(a, u, v), w) == a * Dot(u, w) + Dot(v, w)
  {
    if |u| > 0 {
      DotAxpy(a, u[1..], v[1..], w[1..]);
      assert Axpy(a, u, v)[1..] == Axpy(a, u[1..], v[1..]);
      assert (a * u[0] + v[0]) * w[0] == a * (u[0] * w[0]) + v[0] * w[0];
      assert a * Dot(u, w) == a * (u[0] * w[0]) + a * Dot(u[1..], w[1..]);
    }
  }

  lemma {:induction false} DotCommutes(u: Vec, v: Vec)
    requires |u| == |v|
    ensures Dot(u, v) == Dot(v, u)
  {
    if |u| > 0 {
      DotCommutes(u[1..], v[1..]);
    }
  }

  lemma {:induction false} DotConcat(u: Vec, v: Vec, x: Vec, y: Vec)
    requires |u| == |x| && |v| == |y|
    ensures Dot(u + v, x + y) == Dot(u, x) + Dot(v, y)
  {
    if |u| == 0 {
      assert u + v == v && x + y == y;
    } else {
      assert (u + v)[1..] == u[1..] + v && (x + y)[1..] == x[1..] + y;
      DotConcat(u[1..], v, x[1..], y);
    }
  }

  /** Moving a matrix across an inner product: q . (M v) == (q M) . v */
  lemma {:induction false} Absorb(q: Vec, m: Matrix, v: Vec)
    requires |q| == |m| && Width(m, |v|)
    ensures Dot(q, Apply(m, v)) == Dot(Combine(q, m, |v|), v)
  {
    if |q| == 0 {
      DotZero(v, |v|);
    } else {
      Absorb(q[1..], m[1..], v);
      DotAxpy(q[0], m[0], Combine(q[1..], m[1..], |v|), v);
      assert Apply(m, v)[1..] == Apply(m[1..], v);
    }
  }

  lemma {:induction false} ApplyZero(m: Matrix, n: nat)
    requires Width(m, n)
    ensures Apply(m, Zero(n)) == Zero(|m|)
  {
    if |m| > 0 {
      ApplyZero(m[1..], n);
      DotZero(m[0], n);
    }
  }

  /** Linearity in the second argument. */
  lemma DotAxpyRight(a: real, u: Vec, v: Vec, w: Vec)
    requires |u| == |v| == |w|
    ensures Dot(w, Axpy(a, u, v)) == a * Dot(w, u) + Dot(w, v)
  {
    DotCommutes(w, Axpy(a, u, v));
    DotCommutes(w, u);
    DotCommutes(w, v);
    DotAxpy(a, u, v, w);
    SameSum(a, Dot(u, w), Dot(w, u), Dot(v, w), Dot(w, v));
  }

  lemma SameSum(a: real, x: real, x': real, y: real, y': real)
    requires x == x' && y == y'
    ensures a * x + y == a * x' + y'
  {
  }

  lemma ApplyAxpyAt(m: Matrix, a: real, u: Vec, v: Vec, i: nat)
    requires |u| == |v| && Width(m, |u|) && i < |m|
    ensures Apply(m, Axpy(a, u, v))[i] == Axpy(a, Apply(m, u), Apply(m, v))[i]
  {
    var x, y := Apply(m, u), Apply(m, v);
    ApplyAt(m, Axpy(a, u, v), i);
    ApplyAt(m, u, i);
    ApplyAt(m, v, i);
    AxpyAt(a, x, y, i);
    DotAxpyRight(a, u, v, m[i]);
    SameSum(a, x[i], Dot(m[i], u), y[i], Dot(m[i], v));
  }

  lemma ApplyAxpy(m: Matrix, a: real, u: Vec, v: Vec)
    requires |u| == |v| && Width(m, |u|)
    ensures Apply(m, Axpy(a, u, v)) == Axpy(a, Apply(m, u), Apply(m, v))
  {
    forall i | 0 <= i < |m|
      ensures Apply(m, Axpy(a, u, v))[i] == Axpy(a, Apply(m, u), Apply(m, v))[i]
    {
      ApplyAxpyAt(m, a, u, v, i);
    }
  }

  /** Summing before multiplying: the combination of the products is the product of the combination. */
  lemma {:induction false} CombineApplied(w: Vec, m: Matrix, vs: Matrix, n: nat)
    requires |w| == |vs| && Width(m, n) && Width(vs, n)
    ensures Combine(w, ApplyAll(m, vs, n), |m|) == Apply(m, Combine(w, vs, n))
  {
    if |w| == 0 {
      ApplyZero(m, n);
    } else {
      CombineApplied(w[1..], m, vs[1..], n);
      ApplyAxpy(m, w[0], vs[0], Combine(w[1..], vs[1..], n));
      assert ApplyAll(m, vs, n)[1..] == ApplyAll(m, vs[1..], n);
    }
  }
}
