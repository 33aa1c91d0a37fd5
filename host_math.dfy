/**
 * The numeric primitives the weight driver borrows from the C runtime and
 * from the host application (sqrt, exp, pow, atan2 and the angle between two
 * vectors). Their definitions are not available to the verifier, so they are
 * carried around as a value of type `Maths` and the few facts the node relies
 * on are collected in `Lawful`. Doubles are modelled as exact reals.
 */
module HostMath {

  /** The transcendental functions the node calls. */
  datatype Maths = Maths(
    sqrt: real -> real,
    exp: real -> real,
    pow: (real, real) -> real,
    atan2: (real, real) -> real,
    angle: (seq<real>, seq<real>) -> real)

  /** The properties of the host functions that the proofs use. */
  ghost predicate Lawful(m: Maths) {
    && m.sqrt(0.0) == 0.0
    && (forall x :: x >= 0.0 ==> m.sqrt(x) >= 0.0)
    && m.exp(0.0) == 1.0
    && (forall b, e :: b >= 0.0 ==> m.pow(b, e) >= 0.0)
    && (forall b :: m.pow(b, 0.0) == 1.0)
    && (forall e :: e > 0.0 ==> m.pow(0.0, e) == 0.0)
    && (forall e :: m.pow(1.0, e) == 1.0)
    && (forall x :: x > 0.0 ==> m.atan2(0.0, x) == 0.0)
    && (forall u, v :: m.angle(u, v) == m.angle(v, u))
    && (forall u, v :: m.angle(u, v) >= 0.0)
  }

  /** fabs */
  function Abs(x: real): (r: real)
    ensures r >= 0.0 && (r == x || r == -x)
  {
    if x < 0.0 then -x else x
  }

  /** The machine epsilon of a double, as the source spells it out. */
  const DoubleEpsilon: real := 0.00000000000000022204460492503131

  /** A unit quaternion as the host hands it over. */
  datatype Quaternion = Quaternion(x: real, y: real, z: real, w: real)

  /** A three-component vector as the host hands it over. */
  datatype Vector3 = Vector3(x: real, y: real, z: real)
}
