/**
 * The online hedge-ratio estimator: a Kalman filter over the state
 * [beta, alpha] of the regression price_a = beta * price_b + alpha, with a
 * random-walk prior. One `Update` is one predict/correct cycle.
 *
 * Everything is over the reals; the filter's algebra is stated as pure
 * functions and the class keeps the state and covariance that the source
 * reassigns on each tick.
 */
module Kalman {

  datatype Vec2 = Vec2(x0: real, x1: real)

  /** The 2x2 matrix [[a, b], [c, d]]. */
  datatype Mat2 = Mat2(a: real, b: real, c: real, d: real)

  function Identity(): Mat2
  {
    Mat2(1.0, 0.0, 0.0, 1.0)
  }

  /** np.eye(2) * k */
  function ScaledIdentity(k: real): Mat2
  {
    Mat2(k, 0.0, 0.0, k)
  }

  function Add(m: Mat2, n: Mat2): Mat2
  {
    Mat2(m.a + n.a, m.b + n.b, m.c + n.c, m.d + n.d)
  }

  function Sub(m: Mat2, n: Mat2): Mat2
  {
    Mat2(m.a - n.a, m.b - n.b, m.c - n.c, m.d - n.d)
  }

  function MatMul(m: Mat2, n: Mat2): Mat2
  {
    Mat2(m.a * n.a + m.b * n.c, m.a * n.b + m.b * n.d,
         m.c * n.a + m.d * n.c, m.c * n.b + m.d * n.d)
  }

  /** m @ v */
  function Apply(m: Mat2, v: Vec2): Vec2
  {
    Vec2(m.a * v.x0 + m.b * v.x1, m.c * v.x0 + m.d * v.x1)
  }

  /** np.outer(u, v) */
  function Outer(u: Vec2, v: Vec2): Mat2
  {
    Mat2(u.x0 * v.x0, u.x0 * v.x1, u.x1 * v.x0, u.x1 * v.x1)
  }

  function Dot(u: Vec2, v: Vec2): real
  {
    u.x0 * v.x0 + u.x1 * v.x1
  }

  function VecAdd(u: Vec2, v: Vec2): Vec2
  {
    Vec2(u.x0 + v.x0, u.x1 + v.x1)
  }

  function VecScale(u: Vec2, k: real): Vec2
  {
    Vec2(u.x0 * k, u.x1 * k)
  }

  function VecDiv(u: Vec2, k: real): Vec2
    requires k != 0.0
  {
    Vec2(u.x0 / k, u.x1 / k)
  }

  /** The quadratic form v' m v. */
  function Quad(m: Mat2, v: Vec2): real
  {
    v.x0 * (m.a * v.x0 + m.b * v.x1) + v.x1 * (m.c * v.x0 + m.d * v.x1)
  }

  predicate Symmetric(m: Mat2)
  {
    m.b == m.c
  }

  ghost predicate PositiveSemidefinite(m: Mat2)
  {
    forall v0: real, v1: real :: Quad(m, Vec2(v0, v1)) >= 0.0
  }

  /** The observation row H = [price_b, 1]. */
  function Observation(priceB: real): Vec2
  {
    Vec2(priceB, 1.0)
  }

  /** The predict step: P + Q; the state vector is left as it is. */
  function Predict(p: Mat2, q: Mat2): Mat2
  {
    Add(p, q)
  }

  /** S = H P H' + R */
  function InnovationVariance(p: Mat2, h: Vec2, r: real): (s: real)
    ensures s == Quad(p, h) + r
  {
    Dot(h, Apply(p, h)) + r
  }

  /** Everything one correct step produces. */
  datatype Correction = Correction(error: real, s: real, gain: Vec2, state: Vec2, cov: Mat2)

  /** The correct step against the predicted covariance p and the prior state x. */
  function Correct(p: Mat2, x: Vec2, r: real, priceA: real, priceB: real): (c: Correction)
    requires InnovationVariance(p, Observation(priceB), r) != 0.0
    ensures c.error == priceA - (x.x0 * priceB + x.x1)
    ensures c.state == VecAdd(x, VecScale(c.gain, c.error))
  {
    var h := Observation(priceB);
    var error := priceA - Dot(h, x);
    var s := InnovationVariance(p, h, r);
    var k := VecDiv(Apply(p, h), s);
    Correction(error, s, k, VecAdd(x, VecScale(k, error)), MatMul(Sub(Identity(), Outer(k, h)), p))
  }

  /** S > 0 whenever the predicted P is positive semidefinite and R > 0. */
  lemma InnovationVariancePositive(p: Mat2, h: Vec2, r: real)
    requires PositiveSemidefinite(p) && r > 0.0
    ensures InnovationVariance(p, h, r) > 0.0
  {
    assert Quad(p, Vec2(h.x0, h.x1)) >= 0.0;
  }

  /** The form of P + delta * I is the form of P plus a non-negative term. */
  lemma PredictFormIdentity(a: real, b: real, c: real, d: real, delta: real, v0: real, v1: real)
    ensures v0 * ((a + delta) * v0 + (b + 0.0) * v1) + v1 * ((c + 0.0) * v0 + (d + delta) * v1)
         == v0 * (a * v0 + b * v1) + v1 * (c * v0 + d * v1) + delta * (v0 * v0 + v1 * v1)
    ensures delta >= 0.0 ==> delta * (v0 * v0 + v1 * v1) >= 0.0
  {
  }

  lemma IdentityIsPositiveSemidefinite()
    ensures Symmetric(Identity()) && PositiveSemidefinite(Identity())
  {
    forall v0: real, v1: real ensures Quad(Identity(), Vec2(v0, v1)) >= 0.0 {
      PredictFormIdentity(0.0, 0.0, 0.0, 0.0, 1.0, v0, v1);
      assert Quad(Identity(), Vec2(v0, v1))
          == v0 * ((0.0 + 1.0) * v0 + (0.0 + 0.0) * v1) + v1 * ((0.0 + 0.0) * v0 + (0.0 + 1.0) * v1);
    }
  }

  /** Adding Q = delta * I (delta >= 0) keeps P symmetric and positive semidefinite. */
  lemma PredictKeepsCovariance(p: Mat2, delta: real)
    requires Symmetric(p) && PositiveSemidefinite(p) && delta >= 0.0
    ensures Symmetric(Predict(p, ScaledIdentity(delta)))
    ensures PositiveSemidefinite(Predict(p, ScaledIdentity(delta)))
  {
    var p' := Predict(p, ScaledIdentity(delta));
    forall v0: real, v1: real ensures Quad(p', Vec2(v0, v1)) >= 0.0 {
      PredictFormIdentity(p.a, p.b, p.c, p.d, delta, v0, v1);
      var q := Quad(p, Vec2(v0, v1));
      assert q >= 0.0;
      assert q == v0 * (p.a * v0 + p.b * v1) + v1 * (p.c * v0 + p.d * v1);
      assert Quad(p', Vec2(v0, v1))
          == v0 * ((p.a + delta) * v0 + (p.b + 0.0) * v1) + v1 * ((p.c + 0.0) * v0 + (p.d + delta) * v1);
    }
  }

  /** Ring identities for the entries of (I - k h') P with P symmetric (b == c). */
  lemma CovarianceEntryAlgebra(a: real, b: real, c: real, d: real, h0: real, h1: real, k0: real, k1: real,
                               ma: real, mb: real, mc: real, md: real, u: real, w: real)
    requires b == c
    requires ma == 1.0 - k0 * h0 && mb == 0.0 - k0 * h1 && mc == 0.0 - k1 * h0 && md == 1.0 - k1 * h1
    requires u == a * h0 + b * h1 && w == b * h0 + d * h1
    ensures ma * a + mb * c == a - k0 * u
    ensures ma * b + mb * d == b - k0 * w
    ensures mc * a + md * c == b - k1 * u
    ensures mc * b + md * d == d - k1 * w
  {
  }

  /** The gain is (P h) / S, so each entry times S gives back P h. */
  lemma GainTimesVariance(p: Mat2, h: Vec2, s: real)
    requires s != 0.0
    ensures var k := VecDiv(Apply(p, h), s);
            k.x0 * s == Apply(p, h).x0 && k.x1 * s == Apply(p, h).x1
  {
  }

  /** Entries of the corrected covariance of a symmetric P, with u = (P h)_0 and w = (P h)_1. */
  lemma CorrectedCovarianceEntries(p: Mat2, h: Vec2, k: Vec2, u: real, w: real)
    requires Symmetric(p)
    requires u == p.a * h.x0 + p.b * h.x1 && w == p.b * h.x0 + p.d * h.x1
    ensures MatMul(Sub(Identity(), Outer(k, h)), p)
         == Mat2(p.a - k.x0 * u, p.b - k.x0 * w, p.b - k.x1 * u, p.d - k.x1 * w)
  {
    var m := Sub(Identity(), Outer(k, h));
    CovarianceEntryAlgebra(p.a, p.b, p.c, p.d, h.x0, h.x1, k.x0, k.x1, m.a, m.b, m.c, m.d, u, w);
  }

  /** If the predicted P is symmetric, so is the corrected (I - K H') P. */
  lemma CorrectKeepsSymmetric(p: Mat2, x: Vec2, r: real, priceA: real, priceB: real)
    requires Symmetric(p)
    requires InnovationVariance(p, Observation(priceB), r) != 0.0
    ensures Symmetric(Correct(p, x, r, priceA, priceB).cov)
  {
    var h := Observation(priceB);
    var s := InnovationVariance(p, h, r);
    var c := Correct(p, x, r, priceA, priceB);
    var k0, k1 := c.gain.x0, c.gain.x1;
    GainTimesVariance(p, h, s);
    var u, w := p.a * h.x0 + p.b * h.x1, p.b * h.x0 + p.d * h.x1;
    CorrectedCovarianceEntries(p, h, c.gain, u, w);
    CrossTermsAgree(k0, k1, u, w, s);
  }

  /** k0 * w == k1 * u when k0 * s == u and k1 * s == w (s != 0). */
  lemma CrossTermsAgree(k0: real, k1: real, u: real, w: real, s: real)
    requires s != 0.0 && k0 * s == u && k1 * s == w
    ensures k0 * w == k1 * u
  {
    assert k0 * w * s == k0 * k1 * s * s == k1 * u * s;
  }

  /** Ring identity: subtracting k (P h)' from P lowers the form by (k . v) ((P h) . v). */
  lemma RankOneDowndate(a: real, b: real, d: real, u: real, w: real, k0: real, k1: real, v0: real, v1: real,
                        ca: real, cb: real, cc: real, cd: real, qv: real, q: real, bb: real, qb: real)
    requires ca == a - k0 * u && cb == b - k0 * w && cc == b - k1 * u && cd == d - k1 * w
    requires qv == v0 * (a * v0 + b * v1) + v1 * (b * v0 + d * v1)
    requires q == k0 * v0 + k1 * v1 && bb == u * v0 + w * v1 && qb == q * bb
    ensures v0 * (ca * v0 + cb * v1) + v1 * (cc * v0 + cd * v1) == qv - qb
  {
  }

  /** Ring identity: the form of a symmetric P at v - q h. */
  lemma ShiftedForm(a: real, b: real, d: real, h0: real, h1: real, q: real, v0: real, v1: real,
                    u: real, w: real, e0: real, e1: real, qv: real, bb: real, qh: real, qb: real, qqh: real)
    requires u == a * h0 + b * h1 && w == b * h0 + d * h1
    requires e0 == v0 - q * h0 && e1 == v1 - q * h1
    requires qv == v0 * (a * v0 + b * v1) + v1 * (b * v0 + d * v1)
    requires bb == u * v0 + w * v1 && qh == h0 * u + h1 * w
    requires qb == q * bb && qqh == q * q * qh
    ensures e0 * (a * e0 + b * e1) + e1 * (b * e0 + d * e1) == qv - 2.0 * qb + qqh
  {
  }

  /** k S = P h, so (k . v) S = (P h) . v. */
  lemma GainDotScaled(k0: real, k1: real, s: real, u: real, w: real, v0: real, v1: real, q: real, bb: real)
    requires k0 * s == u && k1 * s == w
    requires q == k0 * v0 + k1 * v1 && bb == u * v0 + w * v1
    ensures q * s == bb
  {
  }

  /** With q S = B and S = H P H' + r: q q (H P H') = q B - r q q. */
  lemma CancelVariance(q: real, s: real, bb: real, qh: real, r: real, qb: real, qqh: real, rqq: real)
    requires q * s == bb && s == qh + r
    requires qb == q * bb && qqh == q * q * qh && rqq == r * q * q
    ensures qqh == qb - rqq
  {
    assert q * q * s == q * bb;
  }

  lemma QuadOfEntries(a: real, b: real, c: real, d: real, v0: real, v1: real)
    ensures Quad(Mat2(a, b, c, d), Vec2(v0, v1)) == v0 * (a * v0 + b * v1) + v1 * (c * v0 + d * v1)
  {
  }

  /**
   * The identity behind positive semidefiniteness of the corrected
   * covariance C = P - k (P h)' with k S = P h and S = h' P h + r: with
   * q = k . v, the form of C at v is the form of P at v - q h plus r q q.
   */
  lemma CorrectedQuadIdentity(a: real, b: real, d: real, h0: real, h1: real, k0: real, k1: real,
                              v0: real, v1: real, r: real, s: real, u: real, w: real,
                              ca: real, cb: real, cc: real, cd: real, q: real, e0: real, e1: real)
    requires u == a * h0 + b * h1 && w == b * h0 + d * h1 && s == h0 * u + h1 * w + r
    requires k0 * s == u && k1 * s == w
    requires ca == a - k0 * u && cb == b - k0 * w && cc == b - k1 * u && cd == d - k1 * w
    requires q == k0 * v0 + k1 * v1 && e0 == v0 - q * h0 && e1 == v1 - q * h1
    ensures Quad(Mat2(ca, cb, cc, cd), Vec2(v0, v1)) == Quad(Mat2(a, b, b, d), Vec2(e0, e1)) + r * q * q
  {
    var qv := v0 * (a * v0 + b * v1) + v1 * (b * v0 + d * v1);
    var qh := h0 * u + h1 * w;
    var bb := u * v0 + w * v1;
    var qb, qqh, rqq := q * bb, q * q * qh, r * q * q;
    QuadOfEntries(ca, cb, cc, cd, v0, v1);
    QuadOfEntries(a, b, b, d, e0, e1);
    RankOneDowndate(a, b, d, u, w, k0, k1, v0, v1, ca, cb, cc, cd, qv, q, bb, qb);
    ShiftedForm(a, b, d, h0, h1, q, v0, v1, u, w, e0, e1, qv, bb, qh, qb, qqh);
    GainDotScaled(k0, k1, s, u, w, v0, v1, q, bb);
    CancelVariance(q, s, bb, qh, r, qb, qqh, rqq);
    CombineForms(Quad(Mat2(ca, cb, cc, cd), Vec2(v0, v1)), Quad(Mat2(a, b, b, d), Vec2(e0, e1)),
                 qv, qb, qqh, rqq);
  }

  /** The last step of the identity, linear in the monomials q B, q q (H P H') and r q q. */
  lemma CombineForms(cForm: real, eForm: real, qv: real, qb: real, qqh: real, rqq: real)
    requires cForm == qv - qb
    requires eForm == qv - 2.0 * qb + qqh
    requires qqh == qb - rqq
    ensures cForm == eForm + rqq
  {
  }

  /** r q q is never negative when r is not. */
  lemma ScaledSquareNonNegative(r: real, q: real)
    requires r >= 0.0
    ensures r * q * q >= 0.0
  {
    assert q * q >= 0.0;
    assert r * q * q == r * (q * q);
  }

  /** The form of (I - K H') P at one vector v is non-negative. */
  lemma CorrectedFormNonNegative(a: real, b: real, d: real, h0: real, h1: real, k0: real, k1: real,
                                 r: real, s: real, u: real, w: real,
                                 ca: real, cb: real, cc: real, cd: real, v0: real, v1: real)
    requires PositiveSemidefinite(Mat2(a, b, b, d)) && r >= 0.0
    requires u == a * h0 + b * h1 && w == b * h0 + d * h1 && s == h0 * u + h1 * w + r
    requires k0 * s == u && k1 * s == w
    requires ca == a - k0 * u && cb == b - k0 * w && cc == b - k1 * u && cd == d - k1 * w
    ensures Quad(Mat2(ca, cb, cc, cd), Vec2(v0, v1)) >= 0.0
  {
    var q := k0 * v0 + k1 * v1;
    var e0, e1 := v0 - q * h0, v1 - q * h1;
    CorrectedQuadIdentity(a, b, d, h0, h1, k0, k1, v0, v1, r, s, u, w, ca, cb, cc, cd, q, e0, e1);
    assert Quad(Mat2(a, b, b, d), Vec2(e0, e1)) >= 0.0;
    ScaledSquareNonNegative(r, q);
  }

  /**
   * The entries of a correction written out: u, w are the entries of P h,
   * S = h' P h + r, K S = P h and C = P - K (P h)'.
   */
  ghost predicate CorrectionEntries(p: Mat2, h: Vec2, r: real, s: real, k: Vec2, c: Mat2, u: real, w: real)
  {
    && u == p.a * h.x0 + p.b * h.x1 && w == p.b * h.x0 + p.d * h.x1
    && s == h.x0 * u + h.x1 * w + r
    && k.x0 * s == u && k.x1 * s == w
    && c == Mat2(p.a - k.x0 * u, p.b - k.x0 * w, p.b - k.x1 * u, p.d - k.x1 * w)
  }

  /** (I - K H') P is positive semidefinite, given its entries. */
  lemma CorrectedEntriesPositiveSemidefinite(p: Mat2, h: Vec2, r: real, s: real, k: Vec2, c: Mat2, u: real, w: real)
    requires Symmetric(p) && PositiveSemidefinite(p) && r >= 0.0
    requires CorrectionEntries(p, h, r, s, k, c, u, w)
    ensures PositiveSemidefinite(c)
  {
    assert p == Mat2(p.a, p.b, p.b, p.d);
    assert c == Mat2(c.a, c.b, c.c, c.d);
    forall v0: real, v1: real ensures Quad(c, Vec2(v0, v1)) >= 0.0 {
      CorrectedFormNonNegative(p.a, p.b, p.d, h.x0, h.x1, k.x0, k.x1, r, s, u, w, c.a, c.b, c.c, c.d, v0, v1);
    }
  }

  /** S = h' P h + r on the entries of a symmetric P. */
  lemma VarianceEntries(p: Mat2, h: Vec2, r: real, s: real, u: real, w: real)
    requires Symmetric(p) && s == InnovationVariance(p, h, r)
    requires u == p.a * h.x0 + p.b * h.x1 && w == p.b * h.x0 + p.d * h.x1
    ensures s == h.x0 * u + h.x1 * w + r
  {
  }

  /** K S = P h on the entries of a symmetric P. */
  lemma GainEntries(p: Mat2, h: Vec2, s: real, k: Vec2, u: real, w: real)
    requires Symmetric(p) && s != 0.0 && k == VecDiv(Apply(p, h), s)
    requires u == p.a * h.x0 + p.b * h.x1 && w == p.b * h.x0 + p.d * h.x1
    ensures k.x0 * s == u && k.x1 * s == w
  {
    GainTimesVariance(p, h, s);
  }

  /** The entries of a correction's covariance, and its gain times S, for a symmetric P. */
  lemma GainCorrectionEntries(p: Mat2, h: Vec2, r: real, s: real, k: Vec2, cov: Mat2, u: real, w: real)
    requires Symmetric(p)
    requires s == InnovationVariance(p, h, r) && s != 0.0
    requires k == VecDiv(Apply(p, h), s)
    requires cov == MatMul(Sub(Identity(), Outer(k, h)), p)
    requires u == p.a * h.x0 + p.b * h.x1 && w == p.b * h.x0 + p.d * h.x1
    ensures CorrectionEntries(p, h, r, s, k, cov, u, w)
  {
    VarianceEntries(p, h, r, s, u, w);
    GainEntries(p, h, s, k, u, w);
    CorrectedCovarianceEntries(p, h, k, u, w);
  }

  /**
   * The covariance (I - k h') P of a correction with gain k = (P h) / S,
   * S = h' P h + r, is positive semidefinite when P is and r >= 0.
   */
  lemma GainCorrectionPositiveSemidefinite(p: Mat2, h: Vec2, r: real, s: real, k: Vec2, cov: Mat2)
    requires Symmetric(p) && PositiveSemidefinite(p) && r >= 0.0
    requires s == InnovationVariance(p, h, r) && s != 0.0
    requires k == VecDiv(Apply(p, h), s)
    requires cov == MatMul(Sub(Identity(), Outer(k, h)), p)
    ensures PositiveSemidefinite(cov)
  {
    var u, w := p.a * h.x0 + p.b * h.x1, p.b * h.x0 + p.d * h.x1;
    GainCorrectionEntries(p, h, r, s, k, cov, u, w);
    CorrectedEntriesPositiveSemidefinite(p, h, r, s, k, cov, u, w);
  }

  /** The corrected covariance stays positive semidefinite (R > 0, P symmetric PSD). */
  lemma CorrectKeepsPositiveSemidefinite(p: Mat2, x: Vec2, r: real, priceA: real, priceB: real)
    requires Symmetric(p) && PositiveSemidefinite(p) && r > 0.0
    ensures InnovationVariance(p, Observation(priceB), r) > 0.0
    ensures PositiveSemidefinite(Correct(p, x, r, priceA, priceB).cov)
  {
    var h := Observation(priceB);
    InnovationVariancePositive(p, h, r);
    var c := Correct(p, x, r, priceA, priceB);
    GainCorrectionPositiveSemidefinite(p, h, r, c.s, c.gain, c.cov);
  }



  /**
   * After the correction the residual of the observation against the new
   * state is the innovation scaled by R / S: the estimate moves toward the
   * observed price_a.
   */
  lemma ResidualShrinks(p: Mat2, x: Vec2, r: real, priceA: real, priceB: real)
    requires InnovationVariance(p, Observation(priceB), r) != 0.0
    ensures var c := Correct(p, x, r, priceA, priceB);
            priceA - (c.state.x0 * priceB + c.state.x1) == c.error * r / c.s
  {
    var c := Correct(p, x, r, priceA, priceB);
    var h := Observation(priceB);
    var s := c.s;
    var g := Apply(p, h);
    GainTimesVariance(p, h, s);
    assert c.gain == VecDiv(g, s);
    var k0, k1 := c.gain.x0, c.gain.x1;
    var hk := priceB * k0 + 1.0 * k1;
    GainAlongObservation(priceB, k0, k1, s, g.x0, g.x1, hk);
    assert priceB * g.x0 + 1.0 * g.x1 == s - r;
    ResidualStep(priceA, priceB, x.x0, x.x1, k0, k1, c.error, hk);
    ShrinkFactor(c.error, s, r, hk);
  }

  /**
   * With P positive semidefinite and R > 0 the factor R / S lies in (0, 1]:
   * the residual after the correction has the innovation's sign and at most
   * its size, so the estimate moves toward the observed price_a.
   */
  lemma ResidualMovesTowardObservation(p: Mat2, x: Vec2, r: real, priceA: real, priceB: real)
    requires PositiveSemidefinite(p) && r > 0.0
    ensures var c := Correct(p, x, r, priceA, priceB);
            var residual := priceA - (c.state.x0 * priceB + c.state.x1);
            0.0 < r / c.s <= 1.0 && residual == c.error * (r / c.s)
  {
    var c := Correct(p, x, r, priceA, priceB);
    InnovationVariancePositive(p, Observation(priceB), r);
    assert Quad(p, Observation(priceB)) >= 0.0;
    assert c.s >= r;
    ResidualShrinks(p, x, r, priceA, priceB);
    FactorInUnitInterval(r, c.s);
  }

  /** 0 < r <= s gives 0 < r / s <= 1. */
  lemma FactorInUnitInterval(r: real, s: real)
    requires 0.0 < r <= s
    ensures 0.0 < r / s <= 1.0
  {
    assert r / s * s == r;
  }

  /** h . k times S is h . (P h) when k S = P h. */
  lemma GainAlongObservation(h0: real, k0: real, k1: real, s: real, g0: real, g1: real, hk: real)
    requires k0 * s == g0 && k1 * s == g1 && hk == h0 * k0 + 1.0 * k1
    ensures hk * s == h0 * g0 + 1.0 * g1
  {
  }

  /** The residual at x + k e is the innovation e minus (h . k) e. */
  lemma ResidualStep(priceA: real, priceB: real, x0: real, x1: real, k0: real, k1: real, e: real, hk: real)
    requires e == priceA - (x0 * priceB + x1) && hk == priceB * k0 + 1.0 * k1
    ensures priceA - ((x0 + k0 * e) * priceB + (x1 + k1 * e)) == e - hk * e
  {
  }

  /** With (h . k) S = S - r: e - (h . k) e = e r / S. */
  lemma ShrinkFactor(e: real, s: real, r: real, hk: real)
    requires s != 0.0 && hk * s == s - r
    ensures e - hk * e == e * r / s
  {
    assert (e - hk * e) * s == e * r;
  }

  /**
   * One predict/correct cycle from a symmetric positive semidefinite P with
   * Q = delta * I (delta >= 0) and R > 0: S is positive, and the corrected
   * covariance is again symmetric and positive semidefinite.
   */
  lemma CycleKeepsCovariance(p: Mat2, delta: real, x: Vec2, r: real, priceA: real, priceB: real)
    requires Symmetric(p) && PositiveSemidefinite(p) && delta >= 0.0 && r > 0.0
    ensures InnovationVariance(Predict(p, ScaledIdentity(delta)), Observation(priceB), r) > 0.0
    ensures var cov := Correct(Predict(p, ScaledIdentity(delta)), x, r, priceA, priceB).cov;
            Symmetric(cov) && PositiveSemidefinite(cov)
  {
    var pp := Predict(p, ScaledIdentity(delta));
    PredictKeepsCovariance(p, delta);
    CorrectKeepsPositiveSemidefinite(pp, x, r, priceA, priceB);
    CorrectKeepsSymmetric(pp, x, r, priceA, priceB);
  }

  /** The filter; `Update` is one predict/correct cycle per tick. */
  class KalmanFilter {
    var state: Vec2
    var P: Mat2
    const Q: Mat2
    const R: real
    ghost const delta: real

    ghost predicate Valid()
      reads this
    {
      && Symmetric(P) && PositiveSemidefinite(P)
      && delta >= 0.0 && Q == ScaledIdentity(delta)
      && R > 0.0
    }

    /** State [0, 0], P = I, Q = delta * I, and the scalar R. */
    constructor (delta: real := 0.0001, R: real := 0.001)
      requires delta >= 0.0 && R > 0.0
      ensures Valid()
      ensures state == Vec2(0.0, 0.0) && P == Identity()
      ensures Q == ScaledIdentity(delta) && this.R == R
    {
      state := Vec2(0.0, 0.0);
      P := Identity();
      Q := ScaledIdentity(delta);
      this.R := R;
      this.delta := delta;
      new;
      IdentityIsPositiveSemidefinite();
    }

    /**
     * Returns the new beta and the innovation (the spread), which is taken
     * against the state before the correction.
     */
    method Update(priceA: real, priceB: real) returns (beta: real, error: real)
      requires Valid()
      modifies this
      ensures Valid()
      ensures InnovationVariance(Predict(old(P), Q), Observation(priceB), R) > 0.0
      ensures var c := Correct(Predict(old(P), Q), old(state), R, priceA, priceB);
              && state == c.state && P == c.cov
              && error == c.error && beta == state.x0
      ensures error == priceA - (old(state).x0 * priceB + old(state).x1)
    {
      CycleKeepsCovariance(P, delta, state, R, priceA, priceB);
      // predict: the state is a random walk, so only P moves
      P := Add(P, Q);
      // correct
      var h := Observation(priceB);
      var expected := Dot(h, state);
      error := priceA - expected;
      assert error == priceA - (state.x0 * priceB + state.x1);
      var s := Dot(h, Apply(P, h)) + R;
      var k := VecDiv(Apply(P, h), s);
      state := VecAdd(state, VecScale(k, error));
      P := MatMul(Sub(Identity(), Outer(k, h)), P);
      beta := state.x0;
    }
  }
}
