/** The engine's sentinel errors (error.go). */
module FuzzyErrors {

  /**
   * The sentinels of error.go, and NilConclusion: not a sentinel, but the nil-pointer panic of
   * Engine.Infer on a rule that was never given a conclusion.
   */
  datatype FuzzyError =
    | MissingArguments
    | UndefinedVariable
    | ValueNotFound
    | UndefinedTerm
    | VariableAlreadyExists
    | TermAlreadyExists
    | NilConclusion
}
