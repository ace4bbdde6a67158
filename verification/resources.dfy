/**
 * Resource kinds. In the game a `ResourceKind` is a one-bit flag; here a
 * concrete kind is the position of its bit, so "exactly one bit set" holds by
 * construction. The full flag list lives in sim/resources.rs, which is not
 * part of this model; only the kinds the building configurations name appear.
 */
module Resources {

  type ResourceKind = nat

  const Rice: ResourceKind := 0
  const Meat: ResourceKind := 1
  const Fish: ResourceKind := 2

  /** The food kinds the house and market configurations refer to. */
  const Foods: set<ResourceKind> := {Rice, Meat, Fish}
}
