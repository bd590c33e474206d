/** The `/remove` slash command: after its validators pass, removes the
    upcoming track with the given 1-based number, or warns when the number
    is past the end of the upcoming tracks. */
module RemoveCommand {
  import opened Domain
  import opened Validation
  import opened Presentation
  import opened Engine
  import opened Interaction

  /** The `tracknumber` option, declared with a minimum value of 1. The
      source reads it as a JavaScript number and does not reject fractional
      values; this model takes whole numbers only. */
  type TrackNumber = n: int | n >= 1 witness 1

  /** The validators of this command, in the order they run. */
  const Pipeline: seq<ValidatorKind> := [NotInVoiceChannel, QueueDoesNotExist, NotInSameVoiceChannel]

  /** The command's behaviour: the reply and engine requests, and the session
      the engine holds afterwards. */
  function Execute(v: Verdicts, s: Session, n: TrackNumber, caller: Caller): (r: (Step, Session))
    ensures |r.0.calls| <= 1
    ensures r.0.calls == [] ==> r.1 == s
    ensures FirstFailure(Pipeline, v).Halt? ==>
      r.0 == Step(Halted(Pipeline[FirstFailure(Pipeline, v).at]), [])
    ensures r.0.reply.Fault? ==> s.queue.None? && r.0.calls == []
    ensures r.0.calls != [] ==>
      && AllPass(Pipeline, v, |Pipeline|)
      && s.queue.Some?
      && r.0.calls == [RemoveTrack(n - 1)]
      && 0 <= n - 1 < |s.queue.value.upcoming|
    ensures r.0.reply.Warning? ==>
      && s.queue.Some?
      && n > |s.queue.value.upcoming|
      && r.0.reply == Warning(InvalidTrackNumber(n, |s.queue.value.upcoming|), false)
      && r.0.calls == []
    ensures r.0.reply.Success? ==>
      && s.queue.Some?
      && r.0.calls != []
      && var q := s.queue.value;
      && r.1 == s.(queue := Some(q.(upcoming := q.upcoming[..n - 1] + q.upcoming[n..])))
      && r.0.reply == Success(Removed, q.upcoming[n - 1], DurationLabelOf(q.upcoming[n - 1]),
                              TrackLink(q.upcoming[n - 1]), AuthorName(caller), None, false)
  {
    match FirstFailure(Pipeline, v)
    case Halt(i) => (Step(Halted(Pipeline[i]), []), s)
    case Clear =>
      if s.queue.None? then
        // `queue.tracks` is read from an absent queue
        (Step(Fault, []), s)
      else
        var q := s.queue.value;
        if n > |q.upcoming| then
          (Step(Warning(InvalidTrackNumber(n, |q.upcoming|), false), []), s)
        else
          var (q', removed) := RemoveAt(q, n - 1);
          assert q'.upcoming == q.upcoming[..n - 1] + q.upcoming[n..];
          var reply := Success(Removed, removed, DurationLabelOf(removed), TrackLink(removed),
                               AuthorName(caller), None, false);
          (Step(reply, [RemoveTrack(n - 1)]), s.(queue := Some(q')))
  }

  /** The validators run in the order not-in-voice, queue-does-not-exist,
      not-in-same-channel; the first failure is the reply and nothing is
      removed. */
  lemma ValidatorOrder(v: Verdicts, s: Session, n: TrackNumber, caller: Caller)
    ensures v.notInVoice == Fail ==>
      Execute(v, s, n, caller) == (Step(Halted(NotInVoiceChannel), []), s)
    ensures v.notInVoice == Pass && v.queueMissing == Fail ==>
      Execute(v, s, n, caller) == (Step(Halted(QueueDoesNotExist), []), s)
    ensures v.notInVoice == Pass && v.queueMissing == Pass && v.notInSameVoice == Fail ==>
      Execute(v, s, n, caller) == (Step(Halted(NotInSameVoiceChannel), []), s)
    ensures !Execute(v, s, n, caller).0.reply.Halted? <==>
      v.notInVoice == Pass && v.queueMissing == Pass && v.notInSameVoice == Pass
  {
  }

  /** Once the validators pass and a queue exists, the warning is given
      exactly when the number is past the end of the upcoming tracks, and
      then the queue is unchanged. */
  lemma OutOfRangeIff(v: Verdicts, s: Session, n: TrackNumber, caller: Caller)
    requires FirstFailure(Pipeline, v).Clear? && s.queue.Some?
    ensures Execute(v, s, n, caller).0.reply.Warning? <==> n > |s.queue.value.upcoming|
    ensures Execute(v, s, n, caller).0.reply.Success? <==> n <= |s.queue.value.upcoming|
    ensures n > |s.queue.value.upcoming| ==> Execute(v, s, n, caller).1 == s
  {
  }

  /** The bound counts the upcoming tracks only: whether a track is playing
      does not change the decision. */
  lemma BoundIgnoresCurrentTrack(v: Verdicts, s: Session, n: TrackNumber, caller: Caller, playing: Option<Track>)
    requires s.queue.Some?
    ensures var s' := s.(queue := Some(s.queue.value.(current := playing)));
      Execute(v, s, n, caller).0 == Execute(v, s', n, caller).0
  {
  }

  /** A removal request is always in bounds of the upcoming tracks. */
  lemma RemovalIndexInBounds(v: Verdicts, s: Session, n: TrackNumber, caller: Caller, i: int)
    requires Execute(v, s, n, caller).0.calls == [RemoveTrack(i)]
    ensures s.queue.Some? && 0 <= i < |s.queue.value.upcoming| && i == n - 1
  {
  }

  /** On success exactly one track leaves the queue, the one numbered `n`;
      every other track keeps its relative order, and the playing track,
      repeat mode and voice state are untouched. */
  lemma RemovesExactlyOne(v: Verdicts, s: Session, n: TrackNumber, caller: Caller)
    requires Execute(v, s, n, caller).0.reply.Success?
    ensures var (step, s') := Execute(v, s, n, caller);
      && s.queue.Some? && s'.queue.Some?
      && var (q, q') := (s.queue.value, s'.queue.value);
      && |q'.upcoming| == |q.upcoming| - 1
      && multiset(q'.upcoming) + multiset{step.reply.track} == multiset(q.upcoming)
      && step.reply.track == q.upcoming[n - 1]
      && (forall j :: 0 <= j < n - 1 ==> q'.upcoming[j] == q.upcoming[j])
      && (forall j :: n - 1 <= j < |q'.upcoming| ==> q'.upcoming[j] == q.upcoming[j + 1])
      && q'.current == q.current && q'.repeatMode == q.repeatMode
      && s'.voice == s.voice
  {
  }

  /** Three upcoming tracks and `/remove 5`: the warning names 5 and 3 and
      nothing is removed. */
  lemma ThreeTracksRemoveFive(v: Verdicts, a: Track, b: Track, c: Track, voice: Voice, caller: Caller)
    requires FirstFailure(Pipeline, v).Clear?
    ensures var s := Session(Some(Queue([a, b, c], None, 0)), voice);
      Execute(v, s, 5, caller) == (Step(Warning(InvalidTrackNumber(5, 3), false), []), s)
  {
  }

  /** With validators failing as `Described` reads them, the command never
      dereferences an absent queue. */
  lemma DescribedValidatorsNeverFault(s: Session, n: TrackNumber, caller: Caller)
    ensures !Execute(Described(s), s, n, caller).0.reply.Fault?
  {
  }

  /** With validators failing as `Described` reads them and no session, the reply
      comes from the voice check when the caller is not in a voice channel,
      and from the queue check otherwise. */
  lemma NoSessionHalts(s: Session, n: TrackNumber, caller: Caller)
    requires s.queue.None?
    ensures Execute(Described(s), s, n, caller).0 ==
      Step(Halted(if s.voice.inVoice then QueueDoesNotExist else NotInVoiceChannel), [])
  {
  }
}
