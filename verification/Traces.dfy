/** Runs of the state machines in this project. */
module Traces {
  /** A run, latest step outermost. */
  datatype Steps<S> = Start | Then(past: Steps<S>, step: S)

  /** `tr` continues `base`. */
  predicate Extends<S(==)>(tr: Steps<S>, base: Steps<S>) {
    tr == base || (tr.Then? && Extends(tr.past, base))
  }
}
