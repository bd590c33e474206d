# cadence: remove command and skip-confirmation button

A Dafny model of the decision logic of two interaction handlers of the
cadence music bot:

- the `/remove` slash command (`RemoveCommand.Execute`), which runs three
  validators in order, checks a 1-based track number against the number of
  upcoming tracks, and asks the playback engine to remove the track at
  index `n - 1`;
- the now-playing "skip" confirmation button (`SkipButton.Execute`), which
  runs four validators in order, re-checks that something is playing,
  rejects clicks whose reference id is no longer the playing track's id,
  and only then asks the engine to skip, reporting the track as it was
  before the skip together with a loop-mode note.

The playback session is an immutable value (`Domain.Session`): the optional
engine queue (upcoming tracks, playing track, repeat mode 0..3) and the
caller's voice facts as booleans. Each handler is a pure function returning
a `Step`: the reply (`Halted` by a validator, a `Warning`, a `Success`
carrying the track snapshot, duration label, link, author name and loop
note, or a `Fault` when the source would throw) and the engine requests it
issues. The handlers never change the queue themselves, so a step without
requests leaves the session as it was; the remove handler also returns the
session after the engine's removal.

The validators' code is not part of this model. Each interaction supplies
their verdicts (`Validation.Verdicts`), so the handlers are proved correct
whatever the validators decide. `Validation.Described` fixes one reading of
the validators' failure conditions (not in voice; a session exists but the
caller is in another channel; no session; a session without a playing
track); lemmas named `DescribedValidatorsNeverFault` show that with
validators failing exactly then, neither handler dereferences an absent
queue or track, and that the skip button's own "nothing playing" check is
then unreachable.

Without a queue, a caller outside voice gets the not-in-voice warning
rather than queue-does-not-exist, because not-in-voice runs first in both
handlers (remove.ts:33, nowplaying-skip-button.ts:29; `NoSessionHalts` in
both handler modules).

Files: `domain.dfy` (session, tracks, caller), `validation.dfy` (validators
and the pipeline runner), `presentation.dfy` (duration label, link, author
name, loop note), `engine.dfy` (engine requests and track removal),
`interaction.dfy` (replies and steps), `remove_command.dfy`,
`skip_button.dfy`.

## Model

| member | source | states |
|---|---|---|
| Validation.FirstFailure | src/interactions/components/nowplaying-skip-button.ts:35-39 | The pipeline is clear iff every validator passes; otherwise it halts at a failing validator all of whose predecessors passed. |
| Validation.RunValidators | src/interactions/commands/player/remove.ts:38-42 | The in-order validator loop returns the first failure, and runs exactly the validators up to and including it (all of them when none fails), so none after a failure is evaluated. |
| Validation.LaterVerdictsIrrelevant | src/interactions/components/nowplaying-skip-button.ts:35-39 | The verdicts of validators after the first failing one do not affect the result: changing them leaves the same halt. |
| Presentation.DurationLabelOf | src/interactions/components/nowplaying-skip-button.ts:74-81 | The label is the LIVE tag exactly for live tracks; blank exactly for non-live tracks whose raw duration is 0 or whose formatted duration is "0:00"; otherwise the formatted duration. |
| Presentation.LabelText | src/interactions/commands/player/remove.ts:64-71 | The label text is empty only for a blank label; a timed label is the duration between two backticks; the live tag is the live icon followed by `` `LIVE` ``. |
| Presentation.TimedTextInjective | src/interactions/commands/player/remove.ts:64-67 | Two timed label texts are equal only when they show the same duration. |
| Presentation.AuthorName | src/interactions/components/nowplaying-skip-button.ts:94-100 | The author is either the username or a non-empty nickname of a guild member; a non-empty nickname always wins; a non-empty username gives a non-empty author. |
| Presentation.ModeNameRoundTrip | src/interactions/components/nowplaying-skip-button.ts:85-92 | Reading back the name of each repeat mode 0..3 gives that mode. |
| Presentation.LoopNoteFor | src/interactions/components/nowplaying-skip-button.ts:114-122 | No note exactly when repeat is off; otherwise the note names the mode (its name reads back to it) and uses the autoplay icon exactly for mode 3. |
| Engine.RemoveAt | src/interactions/commands/player/remove.ts:62 | Removal returns the track at the index; the upcoming tracks shrink by one, keep order before and shift after the index, lose exactly that track as a multiset; playing track and repeat mode stay. |
| Engine.RemoveInsertRoundTrip | src/interactions/commands/player/remove.ts:62 | Inserting the removed track back at its index restores the queue. |
| RemoveCommand.Execute | src/interactions/commands/player/remove.ts:30-96 | At most one request, and none leaves the session unchanged; a failed validator is the reply; a removal only after all validators pass, at an index inside the upcoming tracks; the warning names the number and the exact count; success removes position n. |
| RemoveCommand.ValidatorOrder | src/interactions/commands/player/remove.ts:32-42 | Validators run as not-in-voice, queue-does-not-exist, not-in-same-channel; the first failure is the reply with no request; the handler continues iff all three pass. |
| RemoveCommand.OutOfRangeIff | src/interactions/commands/player/remove.ts:44-59 | Past the validators with a queue, the warning is given iff the number exceeds the upcoming count (success iff it does not), and then the session is unchanged. |
| RemoveCommand.BoundIgnoresCurrentTrack | src/interactions/commands/player/remove.ts:46 | The step does not depend on the playing track: only upcoming tracks are counted. |
| RemoveCommand.RemovalIndexInBounds | src/interactions/commands/player/remove.ts:44-62 | Any removal request is for index n - 1, inside the upcoming tracks. |
| RemoveCommand.RemovesExactlyOne | src/interactions/commands/player/remove.ts:62-71 | On success exactly track n leaves the queue (multiset and order), the reply reports it, and playing track, repeat mode and voice state are untouched. |
| RemoveCommand.ThreeTracksRemoveFive | src/interactions/commands/player/remove.ts:46-58 | Three upcoming tracks and number 5 give the warning naming 5 and 3, with the session unchanged. |
| RemoveCommand.DescribedValidatorsNeverFault | src/interactions/commands/player/remove.ts:30-46 | With validators failing as `Validation.Described` reads them, the command never reads an absent queue. |
| RemoveCommand.NoSessionHalts | src/interactions/commands/player/remove.ts:32-42 | With validators failing as `Validation.Described` reads them and no session, the reply is the not-in-voice warning for a caller outside voice, else the queue-does-not-exist warning. |
| SkipButton.Execute | src/interactions/components/nowplaying-skip-button.ts:26-128 | At most one request, a skip; it is issued iff all validators pass and the playing track's id equals the reference id, and exactly when the reply is a success; a failed validator is the reply; every warning and success clears the buttons; success reports the playing track as it was before the skip. |
| SkipButton.ValidatorOrder | src/interactions/components/nowplaying-skip-button.ts:28-39 | Validators run as not-in-voice, not-in-same-channel, queue-does-not-exist, no-current-track; the first failure is the reply with no skip; the handler continues iff all four pass. |
| SkipButton.NothingPlayingWarning | src/interactions/components/nowplaying-skip-button.ts:41-55 | An absent queue, or one with no upcoming and no playing track, gives the nothing-playing warning with buttons cleared and no skip. |
| SkipButton.StaleReferenceNeverSkips | src/interactions/components/nowplaying-skip-button.ts:57-71 | A reference id other than the playing track's gives the already-skipped warning with buttons cleared and no request. |
| SkipButton.RepliesClearComponents | src/interactions/components/nowplaying-skip-button.ts:41-128 | Every reply the handler sends after its validators clears the buttons. |
| SkipButton.SecondClickNeverSkips | src/interactions/components/nowplaying-skip-button.ts:57-82 | After a skip, clicking the same button once the engine has moved past that track issues no second skip; the skipped track had the reference id. |
| SkipButton.QueueRepeatNote | src/interactions/components/nowplaying-skip-button.ts:85-122 | Skipping with repeat mode 2 reports the looping note naming "queue". |
| SkipButton.DescribedValidatorsNeverFault | src/interactions/components/nowplaying-skip-button.ts:28-57 | With validators failing as `Validation.Described` reads them, the handler never reads an absent track and never reaches the nothing-playing warning. |
| SkipButton.NoSessionHalts | src/interactions/components/nowplaying-skip-button.ts:28-39 | With validators failing as `Validation.Described` reads them and no session, the reply is the not-in-voice warning for a caller outside voice, else the queue-does-not-exist warning. |

## Left out

- Reply rendering: embeds, colours, icons, thumbnails, author icon URLs (`avatarURL() || fallbackIconUrl`) and the `editReply` calls are I/O; a reply is the abstract `Reply` value.
- Style palette access: the skip button reads icons and colours through `this.embedOptions` inside an arrow function of a module-level object, where `this` is not the configuration; the model keeps the palette abstract (only `LabelText` takes the live icon as a parameter) and does not model what that access does at run time.
- Validator implementations (`utils/validation/*`) are not part of this model; their verdicts are inputs, and `Validation.Described` is only a reference reading of the validators.
- What a skip does inside the engine (which track plays next, repeat semantics) is not modelled; a skip is only recorded as a `SkipCurrent` request. The loop note reads the repeat mode of the queue before the request, taking the engine's skip to leave the repeat mode alone.
- Logging (pino logger children and debug lines) and execution ids are left out: they do not affect any decision.
- RemoveCommand.Execute: the track number is a whole number of at least 1; the source takes a JavaScript number with a declared minimum of 1 and does not reject fractional values, whose handling inside the engine's `remove` is not modelled.
- Presentation.DurationLabelOf: the raw duration is an integer; `Number(...)` coercion of non-numeric raw durations (NaN is never 0) is not modelled.
- The playback-error event relay and the `play` command are not part of this model: the first logs the error and sends a user notice unconditionally, plus an operator notice only when a two-flag configuration check passes, the second one voice check around a call into the engine.
