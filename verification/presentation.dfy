/** The pieces of a success reply that both handlers compute from a track
    snapshot and the caller: the duration label, the link, the author name,
    and (skip only) the loop-mode note. Icons and colours come from a style
    palette that this model keeps abstract. */
module Presentation {
  import opened Domain

  /** The duration shown before a track's title. */
  datatype DurationLabel = Blank | Timed(text: string) | LiveTag

  /** A track's length is unknown when the raw duration is numerically zero
      or the formatted one is "0:00". */
  predicate UnknownLength(t: Track) {
    t.rawDuration == 0 || t.duration == "0:00"
  }

  function DurationLabelOf(t: Track): (r: DurationLabel)
    ensures r == LiveTag <==> t.live
    ensures r == Blank <==> !t.live && UnknownLength(t)
    ensures r.Timed? ==> r.text == t.duration && !UnknownLength(t)
  {
    var shown := if UnknownLength(t) then Blank else Timed(t.duration);
    if t.live then LiveTag else shown
  }

  /** The label as it appears in the reply text; `liveIcon` is the palette's
      live-track icon. */
  function LabelText(l: DurationLabel, liveIcon: string): (r: string)
    ensures r == "" <==> l.Blank?
    ensures l.Timed? ==> |r| == |l.text| + 2 && r[0] == '`' && r[|r| - 1] == '`' && r[1..|r| - 1] == l.text
    ensures l.LiveTag? ==> |r| == |liveIcon| + 7 && r[..|liveIcon|] == liveIcon && r[|liveIcon|..] == " `LIVE`"
  {
    match l
    case Blank => ""
    case Timed(d) => "`" + d + "`"
    case LiveTag => liveIcon + " `LIVE`"
  }

  /** The text of a timed label determines the duration it shows. */
  lemma TimedTextInjective(d1: string, d2: string, liveIcon: string)
    requires LabelText(Timed(d1), liveIcon) == LabelText(Timed(d2), liveIcon)
    ensures d1 == d2
  {
  }

  /** The link: `track.raw.url ?? track.url`, so an empty raw URL still wins. */
  function TrackLink(t: Track): string {
    match t.rawUrl
    case Some(u) => u
    case None => t.url
  }

  /** `member.nickname || user.username` for a guild member, else the
      username: an empty nickname counts as absent. */
  function AuthorName(c: Caller): (r: string)
    ensures r == c.username || (c.member.GuildMember? && c.member.nickname == Some(r) && r != "")
    ensures c.member.GuildMember? && c.member.nickname.Some? && c.member.nickname.value != "" ==> r == c.member.nickname.value
    ensures c.username != "" ==> r != ""
  {
    match c.member
    case GuildMember(Some(nick)) => if nick != "" then nick else c.username
    case _ => c.username
  }

  /** The icon of the loop note. */
  datatype NoteIcon = Looping | Autoplaying

  /** The "Looping" paragraph appended to a skip reply. */
  datatype LoopNote = LoopNote(icon: NoteIcon, modeName: string)

  /** The source's `loopModesFormatted` table. */
  function ModeName(m: RepeatMode): string {
    if m == 0 then "disabled"
    else if m == 1 then "track"
    else if m == 2 then "queue"
    else "autoplay"
  }

  /** Reads a mode name back; the partner of `ModeName`. */
  function ModeOfName(name: string): Option<RepeatMode> {
    if name == "disabled" then Some(0)
    else if name == "track" then Some(1)
    else if name == "queue" then Some(2)
    else if name == "autoplay" then Some(3)
    else None
  }

  lemma ModeNameRoundTrip(m: RepeatMode)
    ensures ModeOfName(ModeName(m)) == Some(m)
  {
  }

  /** No note when repeat is off; otherwise a note naming the mode, with the
      autoplay icon exactly for mode 3. */
  function LoopNoteFor(m: RepeatMode): (r: Option<LoopNote>)
    ensures r.None? <==> m == 0
    ensures r.Some? ==> (r.value.icon == Autoplaying <==> m == 3)
    ensures r.Some? ==> ModeOfName(r.value.modeName) == Some(m)
  {
    if m == 0 then None
    else Some(LoopNote(if m == 3 then Autoplaying else Looping, ModeName(m)))
  }
}
