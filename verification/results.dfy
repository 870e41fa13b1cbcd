/** Outcome of a pipeline stage: a value, or the error numpy raises and the run aborts with. */
module Results {

  /** Why a pass aborts. Each constructor names the array operation that raises. */
  datatype PipelineError =
    /** The strided patch view would have a negative extent: the patch is more than one
        row or column larger than the spectrogram. */
    | NegativeDimension
    /** Flattening patches into rows of width h*w with an inferred row count, when h*w == 0. */
    | AmbiguousReshape
    /** A max is taken over an empty axis: no frequency positions, or a time slice of width 0. */
    | EmptyReduction

  datatype Result<+T> = Success(value: T) | Failure(error: PipelineError)

  datatype Option<+T> = None | Some(value: T)
}
