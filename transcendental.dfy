/**
 * The exponential and the logarithm are not modelled. Where the system uses them
 * (sigma = exp(theta_sigma), the logistic change of variable of the AR(1) operator),
 * the model takes any pair of functions with the laws the proofs rely on:
 * exp is positive, log undoes exp, and exp undoes log on the positive reals.
 */
module Transcendental {

  datatype ExpLog = ExpLog(exp: real -> real, log: real -> real)

  ghost predicate Lawful(t: ExpLog)
  {
    && (forall x :: t.exp(x) > 0.0)
    && (forall x {:trigger t.log(t.exp(x))} :: t.log(t.exp(x)) == x)
    && (forall y {:trigger t.exp(t.log(y))} :: y > 0.0 ==> t.exp(t.log(y)) == y)
  }

  /** A rational bijection from the reals onto the positive reals; only used to show that lawful pairs exist. */
  function RationalExp(x: real): real
  {
    if x >= 0.0 then x + 1.0 else 1.0 / (1.0 - x)
  }

  function RationalLog(y: real): real
  {
    if y >= 1.0 then y - 1.0 else if y > 0.0 then 1.0 - 1.0 / y else 0.0
  }

  /** An exp/log pair obeying the laws above. */
  type Transcendental = t: ExpLog | Lawful(t) witness ExpLog(RationalExp, RationalLog)

  /** exp of a lawful pair: positive, and undone by log. */
  function Exp(t: Transcendental, x: real): (y: real)
    ensures y > 0.0 && t.log(y) == x
  {
    t.exp(x)
  }

  /** log of a lawful pair: undone by exp on the positive reals. */
  function Log(t: Transcendental, y: real): (x: real)
    ensures y > 0.0 ==> t.exp(x) == y
    ensures Exp(t, x) == t.exp(x)
  {
    t.log(y)
  }
}
