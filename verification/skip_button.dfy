/** The "skip" confirmation button shown under a now-playing message. The
    button carries the id of the track it was rendered for; a click skips
    that track only if it is still the one playing. */
module SkipButton {
  import opened Domain
  import opened Validation
  import opened Presentation
  import opened Engine
  import opened Interaction

  /** The validators of this button, in the order they run. */
  const Pipeline: seq<ValidatorKind> :=
    [NotInVoiceChannel, NotInSameVoiceChannel, QueueDoesNotExist, QueueNoCurrentTrack]

  /** The queue has nothing to skip: absent, or no upcoming and no playing
      track. */
  predicate NothingToSkip(s: Session) {
    s.queue.None? || (|s.queue.value.upcoming| == 0 && s.queue.value.current.None?)
  }

  /** The click refers to the track that is playing now. */
  predicate Fresh(s: Session, referenceId: string) {
    s.queue.Some? && s.queue.value.current.Some? && s.queue.value.current.value.id == referenceId
  }

  /** The button's behaviour: the reply and the engine requests. */
  function Execute(v: Verdicts, s: Session, referenceId: string, caller: Caller): (r: Step)
    ensures r.calls == [] || r.calls == [SkipCurrent]
    ensures r.calls == [SkipCurrent] <==> FirstFailure(Pipeline, v).Clear? && Fresh(s, referenceId)
    ensures r.reply.Success? <==> r.calls == [SkipCurrent]
    ensures FirstFailure(Pipeline, v).Halt? ==>
      r == Step(Halted(Pipeline[FirstFailure(Pipeline, v).at]), [])
    ensures r.reply.Warning? || r.reply.Success? ==> r.reply.clearsComponents
    ensures r.reply.Fault? ==> s.queue.Some? && s.queue.value.current.None? && |s.queue.value.upcoming| > 0
    ensures r.reply.Success? ==>
      && r.calls == [SkipCurrent]
      && var t := s.queue.value.current.value;
      && r.reply == Success(Skipped, t, DurationLabelOf(t), TrackLink(t), AuthorName(caller),
                            LoopNoteFor(s.queue.value.repeatMode), true)
  {
    match FirstFailure(Pipeline, v)
    case Halt(i) => Step(Halted(Pipeline[i]), [])
    case Clear =>
      if NothingToSkip(s) then
        Step(Warning(NothingPlaying, true), [])
      else
        var q := s.queue.value;
        match q.current
        case None =>
          // `queue.currentTrack!.id` is read from an absent track
          Step(Fault, [])
        case Some(playing) =>
          if playing.id != referenceId then
            Step(Warning(AlreadySkipped, true), [])
          else
            // the snapshot is taken before the skip request
            var reply := Success(Skipped, playing, DurationLabelOf(playing), TrackLink(playing),
                                 AuthorName(caller), LoopNoteFor(q.repeatMode), true);
            Step(reply, [SkipCurrent])
  }

  /** The validators run in the order not-in-voice, not-in-same-channel,
      queue-does-not-exist, no-current-track; the first failure is the reply
      and nothing is skipped. */
  lemma ValidatorOrder(v: Verdicts, s: Session, id: string, caller: Caller)
    ensures v.notInVoice == Fail ==>
      Execute(v, s, id, caller) == Step(Halted(NotInVoiceChannel), [])
    ensures v.notInVoice == Pass && v.notInSameVoice == Fail ==>
      Execute(v, s, id, caller) == Step(Halted(NotInSameVoiceChannel), [])
    ensures v.notInVoice == Pass && v.notInSameVoice == Pass && v.queueMissing == Fail ==>
      Execute(v, s, id, caller) == Step(Halted(QueueDoesNotExist), [])
    ensures v.notInVoice == Pass && v.notInSameVoice == Pass && v.queueMissing == Pass && v.noCurrentTrack == Fail ==>
      Execute(v, s, id, caller) == Step(Halted(QueueNoCurrentTrack), [])
    ensures !Execute(v, s, id, caller).reply.Halted? <==>
      v.notInVoice == Pass && v.notInSameVoice == Pass && v.queueMissing == Pass && v.noCurrentTrack == Pass
  {
  }

  /** Past the validators, an absent queue, or one with no upcoming and no
      playing track, gives the "nothing currently playing" warning with the
      buttons cleared and no skip. */
  lemma NothingPlayingWarning(v: Verdicts, s: Session, id: string, caller: Caller)
    requires FirstFailure(Pipeline, v).Clear? && NothingToSkip(s)
    ensures Execute(v, s, id, caller) == Step(Warning(NothingPlaying, true), [])
  {
  }

  /** A click whose reference id is not the playing track's id gives the
      "already skipped or no longer playing" warning, clears the buttons and
      issues no request. */
  lemma StaleReferenceNeverSkips(v: Verdicts, s: Session, id: string, caller: Caller)
    requires FirstFailure(Pipeline, v).Clear? && !NothingToSkip(s)
    requires s.queue.value.current.Some? && s.queue.value.current.value.id != id
    ensures Execute(v, s, id, caller) == Step(Warning(AlreadySkipped, true), [])
  {
  }

  /** Every reply this handler itself sends clears the buttons. */
  lemma RepliesClearComponents(v: Verdicts, s: Session, id: string, caller: Caller)
    requires FirstFailure(Pipeline, v).Clear?
    requires !Execute(v, s, id, caller).reply.Fault?
    ensures Execute(v, s, id, caller).reply.clearsComponents
  {
  }

  /** Clicking the same button again after the engine has moved past the
      track it referred to does not skip a second time. */
  lemma SecondClickNeverSkips(v1: Verdicts, s1: Session, v2: Verdicts, s2: Session, id: string, caller: Caller)
    requires Execute(v1, s1, id, caller).calls == [SkipCurrent]
    requires s2.queue.Some? && s2.queue.value.current.Some? ==> s2.queue.value.current.value.id != id
    ensures Execute(v2, s2, id, caller).calls == []
    ensures Execute(v1, s1, id, caller).reply.track.id == id
  {
  }

  /** A skip of a track while the queue repeats (mode 2) reports the looping
      note naming the "queue" mode. */
  lemma QueueRepeatNote(v: Verdicts, s: Session, caller: Caller)
    requires FirstFailure(Pipeline, v).Clear?
    requires s.queue.Some? && s.queue.value.repeatMode == 2 && s.queue.value.current.Some?
    ensures var r := Execute(v, s, s.queue.value.current.value.id, caller);
      && r.reply.Success?
      && r.reply.note == Some(LoopNote(Looping, "queue"))
  {
  }

  /** With validators failing as `Described` reads them, the "nothing playing" check
      after them never fires and the handler never dereferences an absent
      track: every click that passes them is either stale or skips. */
  lemma DescribedValidatorsNeverFault(s: Session, id: string, caller: Caller)
    ensures var r := Execute(Described(s), s, id, caller);
      && !r.reply.Fault?
      && !(r.reply.Warning? && r.reply.kind == NothingPlaying)
  {
  }

  /** With validators failing as `Described` reads them and no session, the reply
      comes from the voice check when the caller is not in a voice channel,
      and from the queue check otherwise. */
  lemma NoSessionHalts(s: Session, id: string, caller: Caller)
    requires s.queue.None?
    ensures Execute(Described(s), s, id, caller) ==
      Step(Halted(if s.voice.inVoice then QueueDoesNotExist else NotInVoiceChannel), [])
  {
  }
}
