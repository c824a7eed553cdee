/**
 * The targeting part of a config document: variables, and per feature the
 * ordered targets with their audience, distribution and optional rollout.
 * (The parsers of these records are not part of this model; see Features
 * and ConfigBodies for how they are plugged in.)
 */
module Targeting {
  import opened Wrappers
  import opened Audience

  datatype VariableType = StringType | BooleanType | NumberType | JsonType

  /** A variable declared by the environment: `_id`, `key`, `type`. */
  datatype Variable = Variable(id: string, key: string, vtype: VariableType)

  /** One entry of a target's distribution: a variation and its share. */
  datatype Distribution = Distribution(variationId: string, percentage: real)

  datatype StageKind = Linear | Discrete

  datatype RolloutStage = RolloutStage(kind: StageKind, date: int, percentage: real)

  /**
   * A rollout policy. `Unrecognised` is a rollout object of no known type
   * (the empty object `{}` among them). Dates are milliseconds.
   */
  datatype Rollout =
    | Schedule(startDate: int)
    | Gradual(startDate: int, startPercentage: real, stages: seq<RolloutStage>)
    | Stepped(startDate: int, startPercentage: real, stages: seq<RolloutStage>)
    | Unrecognised

  datatype Target = Target(id: string, audience: Filter, distribution: seq<Distribution>, rollout: Option<Rollout>)

  /** A feature's configuration: its targets, in the order they are tried. */
  datatype FeatureConfiguration = FeatureConfiguration(targets: seq<Target>)
}
