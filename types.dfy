/** The records the batch-generation front end keeps in its stores. */
module Types {

  /** A value that may be absent (`undefined` in the source). */
  datatype Option<+T> = None | Some(value: T)

  /** Lifecycle of a queued generation job. */
  datatype QueueItemStatus = Pending | Skipped | Running | Completed | Failed

  /** A user's 1-5 star rating of a finished run. */
  datatype Rating = One | Two | Three | Four | Five

  /** A prompt variable: the token `$name` and the values it expands to.
      `values` is absent until the user has typed any. */
  datatype CustomVar = CustomVar(name: string, values: Option<seq<string>>)

  /** One generation run and its parameters. Dates are milliseconds since
      the epoch; `scale` is the guidance scale. */
  datatype Run = Run(
    id: string,
    prompt: string,
    steps: int,
    samples: int,
    scale: real,
    iter: int,
    height: int,
    width: int,
    seed: int,
    startedAt: int,
    endedAt: Option<int>,
    elapsed: Option<int>,
    imageName: Option<string>,
    rating: Rating)

  /** A queued job: a run waiting for, undergoing or done with generation. */
  datatype QueueItem = QueueItem(
    id: string,
    run: Run,
    status: QueueItemStatus,
    startedAt: int,
    endedAt: Option<int>,
    elapsed: Option<int>)
}
