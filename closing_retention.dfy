/** The configuration of the closing index retention strategy: its factories
    and its check against the strategies the cluster configuration disables. */
module ClosingRetention {

  datatype ClosingRetentionStrategyConfig = ClosingRetentionStrategyConfig(typeName: string, maxNumberOfIndices: int)

  const DefaultMaxNumberOfIndices: int := 20

  /** The canonical class name, used as the type of configurations created
      without one. */
  const CanonicalType: string := "org.graylog2.indexer.retention.strategies.ClosingRetentionStrategyConfig"

  /** The name of the closing retention strategy. */
  const StrategyName: string := "close"

  /** The validation field the error is reported under. */
  const FieldName: string := "retention_strategy"

  const DeactivatedMessage: string := "Closing retention strategy is deactivated"

  /** Validation errors, by field, in the order they were added. */
  type ValidationResult = map<string, seq<string>>

  /** The two-argument `create` stores both values unchanged. */
  function Create(typeName: string, maxNumberOfIndices: int): (c: ClosingRetentionStrategyConfig)
    ensures c.typeName == typeName && c.maxNumberOfIndices == maxNumberOfIndices
  {
    ClosingRetentionStrategyConfig(typeName, maxNumberOfIndices)
  }

  /** The one-argument `create` uses the canonical class name as type. */
  function CreateWithMax(maxNumberOfIndices: int): (c: ClosingRetentionStrategyConfig)
    ensures c.typeName == CanonicalType && c.maxNumberOfIndices == maxNumberOfIndices
    ensures c == Create(CanonicalType, maxNumberOfIndices)
  {
    ClosingRetentionStrategyConfig(CanonicalType, maxNumberOfIndices)
  }

  function CreateDefault(): (c: ClosingRetentionStrategyConfig)
    ensures c.typeName == CanonicalType && c.maxNumberOfIndices == 20
  {
    CreateWithMax(DefaultMaxNumberOfIndices)
  }

  /** `ValidationResult.addError`: appends the message under the field. */
  function AddError(r: ValidationResult, field: string, message: string): ValidationResult
  {
    r[field := (if field in r then r[field] else []) + [message]]
  }

  /** `validate`: exactly one error, the deactivation message under the
      strategy field, when the closing strategy is disabled; otherwise none.
      The configured maximum plays no part. */
  function Validate(config: ClosingRetentionStrategyConfig, disabledRetentionStrategies: set<string>)
    : (r: ValidationResult)
    ensures StrategyName in disabledRetentionStrategies ==> r == map[FieldName := [DeactivatedMessage]]
    ensures StrategyName !in disabledRetentionStrategies ==> r == map[]
  {
    var result: ValidationResult := map[];
    if StrategyName in disabledRetentionStrategies then
      assert [] + [DeactivatedMessage] == [DeactivatedMessage];
      AddError(result, FieldName, DeactivatedMessage)
    else result
  }

  /** Two configurations are validated alike whatever their type and
      maximum. */
  lemma ValidateIgnoresConfig(a: ClosingRetentionStrategyConfig, b: ClosingRetentionStrategyConfig,
                              disabled: set<string>)
    ensures Validate(a, disabled) == Validate(b, disabled)
  {
  }
}
