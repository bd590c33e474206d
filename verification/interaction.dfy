/** What a handler produces for one interaction: the reply it sends and the
    engine requests it issues, in order. The handlers never touch the queue
    themselves, so an empty request list means the session is unchanged. */
module Interaction {
  import opened Domain
  import opened Validation
  import opened Presentation
  import opened Engine

  datatype Action = Skipped | Removed

  datatype WarningKind =
    | NothingPlaying
    | AlreadySkipped
    | InvalidTrackNumber(requested: int, total: nat)

  datatype Reply =
      /** A validator failed and sent its own warning. */
    | Halted(validator: ValidatorKind)
    | Warning(kind: WarningKind, clearsComponents: bool)
    | Success(
        action: Action,
        track: Track,
        durationLabel: DurationLabel,
        link: string,
        author: string,
        note: Option<LoopNote>,
        clearsComponents: bool)
      /** The handler throws: it dereferenced a queue or track that is absent. */
    | Fault

  datatype Step = Step(reply: Reply, calls: seq<EngineCall>)
}
