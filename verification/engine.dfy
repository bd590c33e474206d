/** The requests a handler issues to the playback engine, and the one whose
    effect on the queue this model defines: removing an upcoming track.
    What a skip does to the queue (which track plays next, how repeat modes
    apply) belongs to the engine and is not modelled; a skip is recorded only
    as the request itself. */
module Engine {
  import opened Domain

  datatype EngineCall = SkipCurrent | RemoveTrack(index: int)

  /** `queue.node.remove(i)`: deletes the upcoming track at 0-based index
      `i` and returns it. */
  function RemoveAt(q: Queue, i: nat): (r: (Queue, Track))
    requires i < |q.upcoming|
    ensures r.1 == q.upcoming[i]
    ensures |r.0.upcoming| == |q.upcoming| - 1
    ensures forall j :: 0 <= j < i ==> r.0.upcoming[j] == q.upcoming[j]
    ensures forall j :: i <= j < |r.0.upcoming| ==> r.0.upcoming[j] == q.upcoming[j + 1]
    ensures multiset(r.0.upcoming) + multiset{r.1} == multiset(q.upcoming)
    ensures r.0.current == q.current && r.0.repeatMode == q.repeatMode
  {
    var rest := q.upcoming[..i] + q.upcoming[i + 1..];
    assert q.upcoming == q.upcoming[..i] + [q.upcoming[i]] + q.upcoming[i + 1..];
    (q.(upcoming := rest), q.upcoming[i])
  }

  /** Puts a track back at index `i` of the upcoming tracks. */
  function InsertAt(q: Queue, i: nat, t: Track): (r: Queue)
    requires i <= |q.upcoming|
    ensures |r.upcoming| == |q.upcoming| + 1 && r.upcoming[i] == t
    ensures r.current == q.current && r.repeatMode == q.repeatMode
  {
    q.(upcoming := q.upcoming[..i] + [t] + q.upcoming[i..])
  }

  /** Removing a track and inserting it back where it was restores the queue. */
  lemma RemoveInsertRoundTrip(q: Queue, i: nat)
    requires i < |q.upcoming|
    ensures InsertAt(RemoveAt(q, i).0, i, RemoveAt(q, i).1) == q
  {
  }
}
