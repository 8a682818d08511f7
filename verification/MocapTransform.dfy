/** The motion-capture frame transform over the reals, and the function that undoes it. */
module MocapTransform {
  import opened Wrappers

  datatype Vec3 = Vec3(x: real, y: real, z: real)
  datatype Quat = Quat(x: real, y: real, z: real, w: real)

  function Add(a: Vec3, b: Vec3): Vec3 {
    Vec3(a.x + b.x, a.y + b.y, a.z + b.z)
  }

  function Subtract(a: Vec3, b: Vec3): Vec3 {
    Vec3(a.x - b.x, a.y - b.y, a.z - b.z)
  }

  const ZERO := Vec3(0.0, 0.0, 0.0)

  function Multiply(l: Quat, r: Quat): Quat {
    Quat(
      l.w * r.x + l.x * r.w + l.y * r.z - l.z * r.y,
      l.w * r.y - l.x * r.z + l.y * r.w + l.z * r.x,
      l.w * r.z + l.x * r.y - l.y * r.x + l.z * r.w,
      l.w * r.w - l.x * r.x - l.y * r.y - l.z * r.z)
  }

  function Conjugate(q: Quat): Quat {
    Quat(-q.x, -q.y, -q.z, q.w)
  }

  function Norm2(q: Quat): real {
    q.x * q.x + q.y * q.y + q.z * q.z + q.w * q.w
  }

  /** `math.sqrt`: any function that returns the non-negative root. */
  ghost predicate IsSquareRoot(root: real -> real) {
    forall x {:trigger root(x)} :: x >= 0.0 ==> root(x) >= 0.0 && root(x) * root(x) == x
  }

  /** A quaternion whose magnitude is below 1e-9 is an error. */
  function Normalize(root: real -> real, q: Quat): Option<Quat> {
    var magnitude := root(Norm2(q));
    if magnitude < 0.000000001 then None
    else Some(Quat(q.x / magnitude, q.y / magnitude, q.z / magnitude, q.w / magnitude))
  }

  function Pure(v: Vec3): Quat {
    Quat(v.x, v.y, v.z, 0.0)
  }

  function VectorPart(q: Quat): Vec3 {
    Vec3(q.x, q.y, q.z)
  }

  function Rotate(root: real -> real, q: Quat, v: Vec3): Option<Vec3> {
    var unit :- Normalize(root, q);
    Some(VectorPart(Multiply(Multiply(unit, Pure(v)), Conjugate(unit))))
  }

  datatype Frames = Frames(roomToNed: Quat, bodyToMarker: Quat, bodyOriginInMarker: Vec3)
  datatype Pose = Pose(position: Vec3, attitude: Quat)

  /** `transform_mocap_pose`, with the origin that is set at the first sample when it was not configured. */
  function TransformMocapPose(root: real -> real, f: Frames, origin: Option<Vec3>, room: Pose): Option<(Pose, Vec3)> {
    var marker :- Normalize(root, room.attitude);
    var offset :- Rotate(root, marker, f.bodyOriginInMarker);
    var absolute :- Rotate(root, f.roomToNed, Add(room.position, offset));
    var attitude :- Normalize(root, Multiply(Multiply(f.roomToNed, marker), f.bodyToMarker));
    var o := if origin.Some? then origin.value else absolute;
    Some((Pose(Subtract(absolute, o), attitude), o))
  }

  /** `ned_pose_to_room_marker`. */
  function NedPoseToRoomMarker(root: real -> real, f: Frames, ned: Pose): Option<Pose> {
    var position :- Rotate(root, Conjugate(f.roomToNed), ned.position);
    var marker :- Normalize(root, Multiply(Multiply(Conjugate(f.roomToNed), ned.attitude), Conjugate(f.bodyToMarker)));
    Some(Pose(position, marker))
  }

  // ---------- Quaternion algebra ----------

  /** Scalars are the quaternions that commute with everything. */
  function Scalar(k: real): Quat {
    Quat(0.0, 0.0, 0.0, k)
  }

  // Products are named so that the solver sees associativity as a linear identity between triple products.

  function Times(a: real, b: real): real {
    a * b
  }

  function Triple(a: real, b: real, c: real): real {
    a * b * c
  }

  lemma Components(l: Quat, r: Quat)
    ensures Multiply(l, r).x == Times(l.w, r.x) + Times(l.x, r.w) + Times(l.y, r.z) - Times(l.z, r.y)
    ensures Multiply(l, r).y == Times(l.w, r.y) - Times(l.x, r.z) + Times(l.y, r.w) + Times(l.z, r.x)
    ensures Multiply(l, r).z == Times(l.w, r.z) + Times(l.x, r.y) - Times(l.y, r.x) + Times(l.z, r.w)
    ensures Multiply(l, r).w == Times(l.w, r.w) - Times(l.x, r.x) - Times(l.y, r.y) - Times(l.z, r.z)
  {}

  lemma DistributeFour(v: real, p: real, q: real, r: real, s: real, k: real)
    requires v == p + q + r + s
    ensures v * k == p * k + q * k + r * k + s * k
  {}

  /** A sum of four signed products, times a factor on either side. */
  lemma SumTimes(
      v: real, k: real, e: seq<real>, a: real, a': real, b: real, b': real, c: real, c': real, d: real, d': real)
    requires |e| == 3 && forall i :: 0 <= i < 3 ==> e[i] == 1.0 || e[i] == -1.0
    requires v == a * a' + e[0] * (b * b') + e[1] * (c * c') + e[2] * (d * d')
    ensures Times(v, k) ==
      Triple(a, a', k) + e[0] * Triple(b, b', k) + e[1] * Triple(c, c', k) + e[2] * Triple(d, d', k)
    ensures Times(k, v) ==
      Triple(k, a, a') + e[0] * Triple(k, b, b') + e[1] * Triple(k, c, c') + e[2] * Triple(k, d, d')
  {
    DistributeFour(v, a * a', e[0] * (b * b'), e[1] * (c * c'), e[2] * (d * d'), k);
  }

  lemma TimesX(l: Quat, r: Quat, k: real)
    ensures Times(Multiply(l, r).x, k) ==
      Triple(l.w, r.x, k) + Triple(l.x, r.w, k) + Triple(l.y, r.z, k) - Triple(l.z, r.y, k)
    ensures Times(k, Multiply(l, r).x) ==
      Triple(k, l.w, r.x) + Triple(k, l.x, r.w) + Triple(k, l.y, r.z) - Triple(k, l.z, r.y)
  {
    hide Times, Triple;
    SumTimes(Multiply(l, r).x, k, [1.0, 1.0, -1.0], l.w, r.x, l.x, r.w, l.y, r.z, l.z, r.y);
  }

  lemma TimesY(l: Quat, r: Quat, k: real)
    ensures Times(Multiply(l, r).y, k) ==
      Triple(l.w, r.y, k) - Triple(l.x, r.z, k) + Triple(l.y, r.w, k) + Triple(l.z, r.x, k)
    ensures Times(k, Multiply(l, r).y) ==
      Triple(k, l.w, r.y) - Triple(k, l.x, r.z) + Triple(k, l.y, r.w) + Triple(k, l.z, r.x)
  {
    hide Times, Triple;
    SumTimes(Multiply(l, r).y, k, [-1.0, 1.0, 1.0], l.w, r.y, l.x, r.z, l.y, r.w, l.z, r.x);
  }

  lemma TimesZ(l: Quat, r: Quat, k: real)
    ensures Times(Multiply(l, r).z, k) ==
      Triple(l.w, r.z, k) + Triple(l.x, r.y, k) - Triple(l.y, r.x, k) + Triple(l.z, r.w, k)
    ensures Times(k, Multiply(l, r).z) ==
      Triple(k, l.w, r.z) + Triple(k, l.x, r.y) - Triple(k, l.y, r.x) + Triple(k, l.z, r.w)
  {
    hide Times, Triple;
    SumTimes(Multiply(l, r).z, k, [1.0, -1.0, 1.0], l.w, r.z, l.x, r.y, l.y, r.x, l.z, r.w);
  }

  lemma TimesW(l: Quat, r: Quat, k: real)
    ensures Times(Multiply(l, r).w, k) ==
      Triple(l.w, r.w, k) - Triple(l.x, r.x, k) - Triple(l.y, r.y, k) - Triple(l.z, r.z, k)
    ensures Times(k, Multiply(l, r).w) ==
      Triple(k, l.w, r.w) - Triple(k, l.x, r.x) - Triple(k, l.y, r.y) - Triple(k, l.z, r.z)
  {
    hide Times, Triple;
    SumTimes(Multiply(l, r).w, k, [-1.0, -1.0, -1.0], l.w, r.w, l.x, r.x, l.y, r.y, l.z, r.z);
  }

  lemma TimesAll(l: Quat, r: Quat, k: real)
    ensures Times(Multiply(l, r).x, k) ==
      Triple(l.w, r.x, k) + Triple(l.x, r.w, k) + Triple(l.y, r.z, k) - Triple(l.z, r.y, k)
    ensures Times(k, Multiply(l, r).x) ==
      Triple(k, l.w, r.x) + Triple(k, l.x, r.w) + Triple(k, l.y, r.z) - Triple(k, l.z, r.y)
    ensures Times(Multiply(l, r).y, k) ==
      Triple(l.w, r.y, k) - Triple(l.x, r.z, k) + Triple(l.y, r.w, k) + Triple(l.z, r.x, k)
    ensures Times(k, Multiply(l, r).y) ==
      Triple(k, l.w, r.y) - Triple(k, l.x, r.z) + Triple(k, l.y, r.w) + Triple(k, l.z, r.x)
    ensures Times(Multiply(l, r).z, k) ==
      Triple(l.w, r.z, k) + Triple(l.x, r.y, k) - Triple(l.y, r.x, k) + Triple(l.z, r.w, k)
    ensures Times(k, Multiply(l, r).z) ==
      Triple(k, l.w, r.z) + Triple(k, l.x, r.y) - Triple(k, l.y, r.x) + Triple(k, l.z, r.w)
    ensures Times(Multiply(l, r).w, k) ==
      Triple(l.w, r.w, k) - Triple(l.x, r.x, k) - Triple(l.y, r.y, k) - Triple(l.z, r.z, k)
    ensures Times(k, Multiply(l, r).w) ==
      Triple(k, l.w, r.w) - Triple(k, l.x, r.x) - Triple(k, l.y, r.y) - Triple(k, l.z, r.z)
  {
    hide Multiply, Times, Triple;
    TimesX(l, r, k);
    TimesY(l, r, k);
    TimesZ(l, r, k);
    TimesW(l, r, k);
  }

  lemma MultiplyAssociative(a: Quat, b: Quat, c: Quat)
    ensures Multiply(Multiply(a, b), c) == Multiply(a, Multiply(b, c))
  {
    hide Multiply, Times, Triple;
    TimesAll(a, b, c.x);
    TimesAll(a, b, c.y);
    TimesAll(a, b, c.z);
    TimesAll(a, b, c.w);
    TimesAll(b, c, a.x);
    TimesAll(b, c, a.y);
    TimesAll(b, c, a.z);
    TimesAll(b, c, a.w);
    Components(Multiply(a, b), c);
    Components(a, Multiply(b, c));
  }

  lemma ConjugateReverses(a: Quat, b: Quat)
    ensures Conjugate(Multiply(a, b)) == Multiply(Conjugate(b), Conjugate(a))
  {
    hide Multiply, Times;
    Components(a, b);
    Components(Conjugate(b), Conjugate(a));
    TimesSigns();
  }

  lemma TimesSigns()
    ensures forall p, q {:trigger Times(-p, q)} :: Times(-p, q) == -Times(q, p)
    ensures forall p, q {:trigger Times(p, -q)} :: Times(p, -q) == -Times(q, p)
    ensures forall p, q {:trigger Times(p, q)} :: Times(p, q) == Times(q, p)
  {}

  lemma ConjugateTwice(a: Quat)
    ensures Conjugate(Conjugate(a)) == a && Norm2(Conjugate(a)) == Norm2(a)
  {
    NegatedSquare(a.x);
    NegatedSquare(a.y);
    NegatedSquare(a.z);
  }

  lemma NegatedSquare(x: real)
    ensures (-x) * (-x) == x * x
  {}

  lemma ConjugateProduct(a: Quat)
    ensures Multiply(Conjugate(a), a) == Scalar(Norm2(a)) == Multiply(a, Conjugate(a))
  {}

  lemma ScalarCommutes(k: real, q: Quat)
    ensures Multiply(Scalar(k), q) == Quat(k * q.x, k * q.y, k * q.z, k * q.w) == Multiply(q, Scalar(k))
  {}

  lemma ScalarNorm(k: real)
    ensures Norm2(Scalar(k)) == k * k
  {}

  lemma ScalarProduct(j: real, k: real)
    ensures Multiply(Scalar(j), Scalar(k)) == Scalar(j * k)
  {}

  lemma ScalarInjective(j: real, k: real)
    ensures Scalar(j) == Scalar(k) ==> j == k
  {}

  lemma NormMultiplicative(a: Quat, b: Quat)
    ensures Norm2(Multiply(a, b)) == Norm2(a) * Norm2(b)
  {
    hide Multiply, Norm2, Conjugate;
    var ca, cb, ab := Conjugate(a), Conjugate(b), Multiply(a, b);
    calc {
      Scalar(Norm2(ab));
      { ConjugateProduct(ab); ConjugateReverses(a, b); }
      Multiply(ab, Multiply(cb, ca));
      { MultiplyAssociative(a, b, Multiply(cb, ca)); MultiplyAssociative(b, cb, ca); }
      Multiply(a, Multiply(Multiply(b, cb), ca));
      { ConjugateProduct(b); }
      Multiply(a, Multiply(Scalar(Norm2(b)), ca));
      { ScalarCommutes(Norm2(b), ca); MultiplyAssociative(a, ca, Scalar(Norm2(b))); }
      Multiply(Multiply(a, ca), Scalar(Norm2(b)));
      { ConjugateProduct(a); }
      Multiply(Scalar(Norm2(a)), Scalar(Norm2(b)));
      { ScalarProduct(Norm2(a), Norm2(b)); }
      Scalar(Norm2(a) * Norm2(b));
    }
    ScalarInjective(Norm2(ab), Norm2(a) * Norm2(b));
  }

  function Plus(a: Quat, b: Quat): Quat {
    Quat(a.x + b.x, a.y + b.y, a.z + b.z, a.w + b.w)
  }

  lemma MultiplyDistributes(a: Quat, b: Quat, c: Quat)
    ensures Multiply(a, Plus(b, c)) == Plus(Multiply(a, b), Multiply(a, c))
  {}

  lemma MultiplyDistributesRight(a: Quat, b: Quat, c: Quat)
    ensures Multiply(Plus(b, c), a) == Plus(Multiply(b, a), Multiply(c, a))
  {}

  // ---------- Normalising ----------

  ghost predicate Unit(q: Quat) {
    Norm2(q) == 1.0
  }

  lemma RootOfOne(root: real -> real)
    requires IsSquareRoot(root)
    ensures root(1.0) == 1.0
  {
    OnlyOne(root(1.0));
  }

  lemma OnlyOne(r: real)
    requires r >= 0.0 && r * r == 1.0
    ensures r == 1.0
  {
    ZeroFactor(r - 1.0, r + 1.0);
  }

  lemma ZeroFactor(a: real, b: real)
    requires a * b == 0.0 && b > 0.0
    ensures a == 0.0
  {}

  lemma NormalizeUnit(root: real -> real, q: Quat)
    requires IsSquareRoot(root) && Unit(q)
    ensures Normalize(root, q) == Some(q)
  {
    hide Norm2;
    RootOfOne(root);
  }

  lemma Norm2NonNegative(q: Quat)
    ensures Norm2(q) >= 0.0
  {}

  /** Normalising multiplies by a positive scalar and gives a unit quaternion. */
  lemma NormalizeScales(root: real -> real, q: Quat)
    requires IsSquareRoot(root) && Normalize(root, q).Some?
    ensures root(Norm2(q)) > 0.0
    ensures Normalize(root, q).value == Multiply(Scalar(1.0 / root(Norm2(q))), q)
    ensures Unit(Normalize(root, q).value)
  {
    hide Multiply, Norm2;
    var m := root(Norm2(q));
    var k := 1.0 / m;
    Norm2NonNegative(q);
    ScalarCommutes(k, q);
    ScalarNorm(k);
    DivideByMultiply(q.x, m);
    DivideByMultiply(q.y, m);
    DivideByMultiply(q.z, m);
    DivideByMultiply(q.w, m);
    NormMultiplicative(Scalar(k), q);
    ReciprocalSquare(m);
  }

  lemma DivideByMultiply(x: real, m: real)
    requires m != 0.0
    ensures x / m == (1.0 / m) * x
  {}

  lemma ReciprocalSquare(m: real)
    requires m > 0.0
    ensures ((1.0 / m) * (1.0 / m)) * (m * m) == 1.0
  {
    var k := 1.0 / m;
    assert k * m == 1.0;
    assert (k * k) * (m * m) == (k * m) * (k * m);
  }

  // ---------- Rotations ----------

  /** The rotation of a vector by a unit quaternion, still as a quaternion. */
  function Sandwich(q: Quat, v: Quat): Quat {
    Multiply(Multiply(q, v), Conjugate(q))
  }

  lemma PureConjugate(v: Vec3)
    ensures Conjugate(Pure(v)) == Multiply(Scalar(-1.0), Pure(v))
  {}

  lemma SandwichConjugate(q: Quat, v: Vec3)
    ensures Conjugate(Sandwich(q, Pure(v))) == Multiply(Scalar(-1.0), Sandwich(q, Pure(v)))
  {
    hide Multiply, Conjugate, Pure;
    var p, c := Pure(v), Conjugate(q);
    calc {
      Conjugate(Sandwich(q, p));
      { ConjugateReverses(Multiply(q, p), c); ConjugateReverses(q, p); ConjugateTwice(q); }
      Multiply(q, Multiply(Conjugate(p), c));
      { PureConjugate(v); MultiplyAssociative(Scalar(-1.0), p, c); }
      Multiply(q, Multiply(Scalar(-1.0), Multiply(p, c)));
      { MultiplyAssociative(q, Scalar(-1.0), Multiply(p, c)); ScalarCommutes(-1.0, q); }
      Multiply(Multiply(Scalar(-1.0), q), Multiply(p, c));
      { MultiplyAssociative(Scalar(-1.0), q, Multiply(p, c)); MultiplyAssociative(q, p, c); }
      Multiply(Scalar(-1.0), Sandwich(q, p));
    }
  }

  /** Rotating a pure quaternion gives a pure quaternion. */
  lemma SandwichPure(q: Quat, v: Vec3)
    ensures Pure(VectorPart(Sandwich(q, Pure(v)))) == Sandwich(q, Pure(v))
  {
    hide Sandwich;
    SandwichConjugate(q, v);
    NoScalarPart(Sandwich(q, Pure(v)));
  }

  lemma NoScalarPart(s: Quat)
    requires Conjugate(s) == Multiply(Scalar(-1.0), s)
    ensures s.w == 0.0
  {
    hide Multiply;
    ScalarCommutes(-1.0, s);
  }

  /** Rotating by a unit quaternion and then by its conjugate changes nothing. */
  lemma SandwichBack(q: Quat, v: Quat)
    requires Unit(q)
    ensures Sandwich(Conjugate(q), Sandwich(q, v)) == v
  {
    hide Multiply, Conjugate, Norm2;
    var c := Conjugate(q);
    ConjugateTwice(q);
    ConjugateProduct(q);
    calc {
      Multiply(Multiply(c, Multiply(Multiply(q, v), c)), q);
      { MultiplyAssociative(q, v, c); MultiplyAssociative(c, q, Multiply(v, c)); }
      Multiply(Multiply(Scalar(1.0), Multiply(v, c)), q);
      { ScalarCommutes(1.0, Multiply(v, c)); }
      Multiply(Multiply(v, c), q);
      { MultiplyAssociative(v, c, q); ScalarCommutes(1.0, v); }
      v;
    }
  }

  lemma SandwichAdds(q: Quat, a: Quat, b: Quat)
    ensures Sandwich(q, Plus(a, b)) == Plus(Sandwich(q, a), Sandwich(q, b))
  {
    hide Multiply, Plus, Conjugate;
    MultiplyDistributes(q, a, b);
    MultiplyDistributesRight(Conjugate(q), Multiply(q, a), Multiply(q, b));
  }

  /** Rotation by a unit quaternion, as a total function on vectors. */
  function Turn(q: Quat, v: Vec3): Vec3 {
    VectorPart(Sandwich(q, Pure(v)))
  }

  lemma RotateIsTurn(root: real -> real, q: Quat, v: Vec3)
    requires IsSquareRoot(root) && Unit(q)
    ensures Rotate(root, q, v) == Some(Turn(q, v))
  {
    hide Multiply;
    NormalizeUnit(root, q);
  }

  lemma TurnBack(q: Quat, v: Vec3)
    requires Unit(q)
    ensures Unit(Conjugate(q)) && Turn(Conjugate(q), Turn(q, v)) == v && Turn(q, Turn(Conjugate(q), v)) == v
  {
    hide Sandwich, Conjugate;
    ConjugateTwice(q);
    SandwichPure(q, v);
    SandwichBack(q, Pure(v));
    SandwichPure(Conjugate(q), v);
    SandwichBack(Conjugate(q), Pure(v));
  }

  lemma TurnSubtracts(q: Quat, a: Vec3, b: Vec3)
    ensures Turn(q, Subtract(a, b)) == Subtract(Turn(q, a), Turn(q, b))
  {
    hide Sandwich;
    SandwichAdds(q, Pure(Subtract(a, b)), Pure(b));
    assert Plus(Pure(Subtract(a, b)), Pure(b)) == Pure(a);
  }

  lemma TurnInjective(q: Quat, a: Vec3, b: Vec3)
    requires Unit(q) && Turn(q, a) == Turn(q, b)
    ensures a == b
  {
    hide Turn;
    TurnBack(q, a);
    TurnBack(q, b);
  }

  lemma TurnZero(q: Quat)
    ensures Turn(q, ZERO) == ZERO
  {
    hide Turn;
    TurnSubtracts(q, ZERO, ZERO);
    assert Subtract(ZERO, ZERO) == ZERO;
  }

  // ---------- The transform and its inverse ----------

  /** The frames as the publisher holds them: both fixed rotations were normalised when they were read. */
  ghost predicate Configured(f: Frames) {
    Unit(f.roomToNed) && Unit(f.bodyToMarker)
  }

  /** The attitude chain is undone up to the normalisation of the measured attitude. */
  lemma AttitudeBack(r: Quat, m: Quat, b: Quat)
    requires Unit(r) && Unit(b)
    ensures Multiply(Multiply(Conjugate(r), Multiply(Multiply(r, m), b)), Conjugate(b)) == m
  {
    hide Multiply, Conjugate, Norm2;
    var cr, cb := Conjugate(r), Conjugate(b);
    calc {
      Multiply(Multiply(cr, Multiply(Multiply(r, m), b)), cb);
      { MultiplyAssociative(r, m, b); MultiplyAssociative(cr, r, Multiply(m, b)); ConjugateProduct(r); }
      Multiply(Multiply(Scalar(1.0), Multiply(m, b)), cb);
      { ScalarCommutes(1.0, Multiply(m, b)); }
      Multiply(Multiply(m, b), cb);
      { MultiplyAssociative(m, b, cb); ConjugateProduct(b); ScalarCommutes(1.0, m); }
      m;
    }
  }

  /** The forward transform, written without normalisations that change nothing. */
  lemma ForwardPose(root: real -> real, f: Frames, origin: Option<Vec3>, room: Pose)
    requires IsSquareRoot(root) && Configured(f) && Normalize(root, room.attitude).Some?
    ensures var m := Normalize(root, room.attitude).value;
      var absolute := Turn(f.roomToNed, Add(room.position, Turn(m, f.bodyOriginInMarker)));
      var o := if origin.Some? then origin.value else absolute;
      TransformMocapPose(root, f, origin, room)
        == Some((Pose(Subtract(absolute, o), Multiply(Multiply(f.roomToNed, m), f.bodyToMarker)), o))
  {
    hide Multiply, Norm2, Normalize, Turn, Rotate;
    var m := Normalize(root, room.attitude).value;
    NormalizeScales(root, room.attitude);
    NormalizeUnit(root, m);
    RotateIsTurn(root, m, f.bodyOriginInMarker);
    RotateIsTurn(root, f.roomToNed, Add(room.position, Turn(m, f.bodyOriginInMarker)));
    NormMultiplicative(f.roomToNed, m);
    NormMultiplicative(Multiply(f.roomToNed, m), f.bodyToMarker);
    NormalizeUnit(root, Multiply(Multiply(f.roomToNed, m), f.bodyToMarker));
  }

  /** What the inverse recovers from a forward transform, whatever the marker offset and the origin. */
  lemma InverseRecovers(root: real -> real, f: Frames, origin: Option<Vec3>, room: Pose)
    requires IsSquareRoot(root) && Configured(f) && Normalize(root, room.attitude).Some?
    ensures TransformMocapPose(root, f, origin, room).Some?
    ensures var m := Normalize(root, room.attitude).value;
      var (ned, o) := TransformMocapPose(root, f, origin, room).value;
      var shift := Subtract(Turn(m, f.bodyOriginInMarker), Turn(Conjugate(f.roomToNed), o));
      NedPoseToRoomMarker(root, f, ned) == Some(Pose(Add(room.position, shift), m))
  {
    hide Multiply, Norm2, Normalize, Turn, Rotate, Conjugate;
    var m := Normalize(root, room.attitude).value;
    var r, b := f.roomToNed, f.bodyToMarker;
    ForwardPose(root, f, origin, room);
    var (ned, o) := TransformMocapPose(root, f, origin, room).value;
    var body := Add(room.position, Turn(m, f.bodyOriginInMarker));
    ConjugateTwice(r);
    TurnBack(r, body);
    TurnSubtracts(Conjugate(r), Turn(r, body), o);
    RotateIsTurn(root, Conjugate(r), ned.position);
    AttitudeBack(r, m, b);
    NormalizeScales(root, room.attitude);
    NormalizeUnit(root, m);
  }

  /**
  The inverse gives back the measured position exactly when the rotated marker offset cancels the
  origin; in particular, with a zero origin, exactly when the marker offset is zero.
  */
  lemma InverseExact(root: real -> real, f: Frames, origin: Vec3, room: Pose)
    requires IsSquareRoot(root) && Configured(f) && Normalize(root, room.attitude).Some?
    ensures TransformMocapPose(root, f, Some(origin), room).Some?
    ensures var m := Normalize(root, room.attitude).value;
      var back := NedPoseToRoomMarker(root, f, TransformMocapPose(root, f, Some(origin), room).value.0);
      && back.Some? && back.value.attitude == m
      && (back.value.position == room.position <==>
            Turn(f.roomToNed, Turn(m, f.bodyOriginInMarker)) == origin)
      && (origin == ZERO ==> (back.value.position == room.position <==> f.bodyOriginInMarker == ZERO))
  {
    hide Multiply, Norm2, Normalize, Turn, Rotate, Conjugate, TransformMocapPose, NedPoseToRoomMarker;
    var m := Normalize(root, room.attitude).value;
    InverseRecovers(root, f, Some(origin), room);
    OriginKept(root, f, origin, room);
    var offset, r := Turn(m, f.bodyOriginInMarker), f.roomToNed;
    TurnBack(r, origin);
    TurnBack(r, offset);
    NormalizeScales(root, room.attitude);
    TurnZero(r);
    TurnZero(m);
    if Turn(r, offset) == ZERO {
      TurnInjective(r, offset, ZERO);
      TurnInjective(m, f.bodyOriginInMarker, ZERO);
    }
  }

  lemma OriginKept(root: real -> real, f: Frames, origin: Vec3, room: Pose)
    requires TransformMocapPose(root, f, Some(origin), room).Some?
    ensures TransformMocapPose(root, f, Some(origin), room).value.1 == origin
  {}

  // ---------- Which rotation it is ----------

  const I := Quat(1.0, 0.0, 0.0, 0.0)
  const J := Quat(0.0, 1.0, 0.0, 0.0)
  const K := Quat(0.0, 0.0, 1.0, 0.0)

  /** The products of the units: Hamilton's, and not their mirror image. */
  lemma UnitProducts()
    ensures Multiply(I, J) == K && Multiply(J, K) == I && Multiply(K, I) == J
    ensures Multiply(J, I) == Conjugate(K) && Multiply(K, J) == Conjugate(I) && Multiply(I, K) == Conjugate(J)
    ensures Multiply(I, I) == Multiply(J, J) == Multiply(K, K) == Scalar(-1.0)
  {
    hide Multiply;
    UnitsLeft(I);
    UnitsLeft(J);
    UnitsLeft(K);
  }

  /** Multiplying by a unit from the left permutes the components of any quaternion. */
  lemma UnitsLeft(q: Quat)
    ensures Multiply(I, q) == Quat(q.w, -q.z, q.y, -q.x)
    ensures Multiply(J, q) == Quat(q.z, q.w, -q.x, -q.y)
    ensures Multiply(K, q) == Quat(-q.y, q.x, q.w, -q.z)
  {}

  /** Rotating by a product is rotating by its factors, the right one first. */
  lemma TurnComposes(a: Quat, b: Quat, v: Vec3)
    ensures Turn(Multiply(a, b), v) == Turn(a, Turn(b, v))
  {
    hide Multiply, Conjugate, Pure, VectorPart;
    var p, ca, cb := Pure(v), Conjugate(a), Conjugate(b);
    SandwichPure(b, v);
    ConjugateReverses(a, b);
    calc {
      Sandwich(Multiply(a, b), p);
      Multiply(Multiply(Multiply(a, b), p), Multiply(cb, ca));
      { MultiplyAssociative(a, b, p); }
      Multiply(Multiply(a, Multiply(b, p)), Multiply(cb, ca));
      { MultiplyAssociative(Multiply(a, Multiply(b, p)), cb, ca); }
      Multiply(Multiply(Multiply(a, Multiply(b, p)), cb), ca);
      { MultiplyAssociative(a, Multiply(b, p), cb); }
      Multiply(Multiply(a, Multiply(Multiply(b, p), cb)), ca);
      Sandwich(a, Sandwich(b, p));
    }
  }

  /**
  The sense of a rotation: a half turn about z reverses x and y, and rotating about z by less than
  that leads x towards y.
  */
  lemma TurnAboutZ(z: real, w: real)
    ensures Turn(Quat(0.0, 0.0, z, w), Vec3(1.0, 0.0, 0.0)) == Vec3(w * w - z * z, 2.0 * (w * z), 0.0)
    ensures Turn(Quat(0.0, 0.0, z, w), Vec3(0.0, 0.0, 1.0)) == Vec3(0.0, 0.0, w * w + z * z)
  {}

  /**
  What the published attitude means: it rotates a body vector as the chain body to marker, marker to
  room, room to NED does; and the published position is that of the body origin, seen from the origin.
  */
  lemma PoseMeans(root: real -> real, f: Frames, origin: Option<Vec3>, room: Pose, v: Vec3)
    requires IsSquareRoot(root) && Configured(f) && Normalize(root, room.attitude).Some?
    ensures TransformMocapPose(root, f, origin, room).Some?
    ensures var m := Normalize(root, room.attitude).value;
      var (ned, o) := TransformMocapPose(root, f, origin, room).value;
      && Turn(ned.attitude, v) == Turn(f.roomToNed, Turn(m, Turn(f.bodyToMarker, v)))
      && Add(ned.position, o) == Turn(f.roomToNed, Add(room.position, Turn(m, f.bodyOriginInMarker)))
      && (origin.None? ==> ned.position == ZERO)
  {
    hide Multiply, Norm2, Normalize, Turn, Rotate, Conjugate;
    var m := Normalize(root, room.attitude).value;
    ForwardPose(root, f, origin, room);
    TurnComposes(Multiply(f.roomToNed, m), f.bodyToMarker, v);
    TurnComposes(f.roomToNed, m, Turn(f.bodyToMarker, v));
  }

  /** Exactly the quaternions shorter than 1e-9 are refused. */
  lemma NormalizeRefuses(root: real -> real, q: Quat)
    requires IsSquareRoot(root)
    ensures Normalize(root, q).None? <==> Norm2(q) < 0.000000001 * 0.000000001
  {
    hide Norm2;
    Norm2NonNegative(q);
    SquaresOrdered(root(Norm2(q)), 0.000000001);
  }

  lemma TimesSign(x: real, y: real)
    requires x >= 0.0 && y >= 0.0
    ensures Times(x, y) >= 0.0 && (x > 0.0 && y > 0.0 ==> Times(x, y) > 0.0)
  {}

  lemma DifferenceOfSquares(a: real, b: real)
    ensures Times(a, a) - Times(b, b) == Times(a - b, a) + Times(a - b, b)
  {}

  lemma SquaresOrdered(a: real, b: real)
    requires a >= 0.0 && b >= 0.0
    ensures a < b <==> Times(a, a) < Times(b, b)
  {
    hide Times;
    if a < b {
      DifferenceOfSquares(b, a);
      TimesSign(b - a, b);
      TimesSign(b - a, a);
    } else {
      DifferenceOfSquares(a, b);
      TimesSign(a - b, a);
      TimesSign(a - b, b);
    }
  }
}
