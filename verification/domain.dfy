/** The abstract state one interaction handler reads: the per-server playback
    session owned by the engine, the tracks it holds, and the invoking user.
    Everything here is an immutable snapshot taken when the handler runs. */
module Domain {

  /** Presence or absence of a value (the source's `null`/`undefined`). */
  datatype Option<+T> = None | Some(value: T)

  /** Snapshot of one playable item. `rawDuration` is the engine's numeric
      duration (`Number(track.raw.duration)`), `duration` the formatted one
      such as "3:25"; a zero raw duration or "0:00" means "unknown length". */
  datatype Track = Track(
    id: string,
    title: string,
    url: string,
    rawUrl: Option<string>,
    duration: string,
    rawDuration: int,
    live: bool,
    thumbnail: string)

  /** The engine's repeat mode: 0 off, 1 track, 2 queue, 3 autoplay. */
  type RepeatMode = m: int | 0 <= m <= 3

  /** The engine's queue: the upcoming tracks (`queue.tracks.data`, which
      does not include the playing track), the playing track, and the
      repeat mode. */
  datatype Queue = Queue(upcoming: seq<Track>, current: Option<Track>, repeatMode: RepeatMode)

  /** Voice-channel facts about the invoking member. */
  datatype Voice = Voice(inVoice: bool, sameChannel: bool)

  /** What a handler sees: the server's queue, if the engine has one, and the
      caller's voice state. */
  datatype Session = Session(queue: Option<Queue>, voice: Voice)

  /** `interaction.member`: a resolved guild member (with an optional
      nickname) or anything else (an API member object or no member). */
  datatype Member = GuildMember(nickname: Option<string>) | OtherMember

  /** The invoking user. */
  datatype Caller = Caller(username: string, member: Member)
}
