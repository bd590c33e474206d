/** Precondition validators and the runner that evaluates an ordered list
    of them, stopping at the first failure. The validators' own code is not
    part of this model: each interaction supplies their verdicts. */
module Validation {
  import opened Domain

  datatype ValidatorKind =
    | NotInVoiceChannel
    | NotInSameVoiceChannel
    | QueueDoesNotExist
    | QueueNoCurrentTrack

  /** A validator either lets the handler continue or has already sent its
      own warning reply (the source's truthy return value). */
  datatype Verdict = Pass | Fail

  /** The verdict each validator would give for one interaction. */
  datatype Verdicts = Verdicts(
    notInVoice: Verdict,
    notInSameVoice: Verdict,
    queueMissing: Verdict,
    noCurrentTrack: Verdict)
  {
    function Of(k: ValidatorKind): Verdict {
      match k
      case NotInVoiceChannel => notInVoice
      case NotInSameVoiceChannel => notInSameVoice
      case QueueDoesNotExist => queueMissing
      case QueueNoCurrentTrack => noCurrentTrack
    }
  }

  /** Either every validator passed, or the one at index `at` was the first
      to fail. */
  datatype PipelineResult = Clear | Halt(at: nat)

  ghost predicate AllPass(pipeline: seq<ValidatorKind>, v: Verdicts, upTo: int)
    requires upTo <= |pipeline|
  {
    forall i :: 0 <= i < upTo ==> v.Of(pipeline[i]) == Pass
  }

  /** The first failing validator of `pipeline`, if any. */
  function FirstFailure(pipeline: seq<ValidatorKind>, v: Verdicts): (r: PipelineResult)
    ensures r.Clear? <==> AllPass(pipeline, v, |pipeline|)
    ensures r.Halt? ==> r.at < |pipeline| && v.Of(pipeline[r.at]) == Fail && AllPass(pipeline, v, r.at)
    decreases |pipeline|
  {
    if |pipeline| == 0 then Clear
    else if v.Of(pipeline[0]) == Fail then Halt(0)
    else
      match FirstFailure(pipeline[1..], v)
      case Clear => Clear
      case Halt(j) => Halt(j + 1)
  }

  /** The handlers' `for (const validator of validators)` loop: evaluates the
      validators one by one and returns as soon as one fails. `evaluated`
      counts the validators that were run. */
  method RunValidators(pipeline: seq<ValidatorKind>, v: Verdicts) returns (r: PipelineResult, evaluated: nat)
    ensures r == FirstFailure(pipeline, v)
    ensures evaluated <= |pipeline|
    ensures r.Clear? ==> evaluated == |pipeline|
    ensures r.Halt? ==> evaluated == r.at + 1
  {
    evaluated := 0;
    while evaluated < |pipeline|
      invariant evaluated <= |pipeline|
      invariant AllPass(pipeline, v, evaluated)
    {
      var verdict := v.Of(pipeline[evaluated]);
      evaluated := evaluated + 1;
      if verdict == Fail {
        return Halt(evaluated - 1), evaluated;
      }
    }
    return Clear, evaluated;
  }

  /** Validators after the first failing one are never consulted: verdicts
      that agree up to and including it give the same result. */
  lemma LaterVerdictsIrrelevant(pipeline: seq<ValidatorKind>, v1: Verdicts, v2: Verdicts, j: nat)
    requires FirstFailure(pipeline, v1) == Halt(j)
    requires forall i :: 0 <= i <= j && i < |pipeline| ==> v2.Of(pipeline[i]) == v1.Of(pipeline[i])
    ensures FirstFailure(pipeline, v2) == Halt(j)
  {
  }

  /** Validators that fail exactly when: the caller is not in voice; a
      session exists but the caller is in another channel; no session exists;
      a session exists without a playing track. */
  function Described(s: Session): Verdicts {
    Verdicts(
      if s.voice.inVoice then Pass else Fail,
      if s.queue.Some? && !s.voice.sameChannel then Fail else Pass,
      if s.queue.None? then Fail else Pass,
      if s.queue.Some? && s.queue.value.current.None? then Fail else Pass)
  }
}
