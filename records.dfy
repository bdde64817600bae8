/**
 * The entities the message board keeps in memory (a board is a named array of
 * threads, a thread holds an array of replies) and the JSON objects the two
 * read handlers build from them, without the password and the report flag.
 */
module Records {

  /** A reply, as pushed onto a thread's `replies` array. Timestamps are
      milliseconds; ids are the decimal text of the clock at creation. */
  datatype Reply = Reply(
    id: string,
    text: string,
    createdOn: int,
    deletePassword: string,
    reported: bool)

  /** A thread, as unshifted onto a board's array. `replyCount` is a stored
      field next to the `replies` array it is meant to count. */
  datatype Thread = Thread(
    id: string,
    text: string,
    createdOn: int,
    bumpedOn: int,
    reported: bool,
    deletePassword: string,
    replies: seq<Reply>,
    replyCount: int)

  /** The JSON object sent for a reply: no password and no report flag. */
  datatype ReplyView = ReplyView(id: string, text: string, createdOn: int)

  /** The JSON object sent for a thread: no password and no report flag. */
  datatype ThreadView = ThreadView(
    id: string,
    text: string,
    createdOn: int,
    bumpedOn: int,
    replies: seq<ReplyView>,
    replyCount: int)

  /** The text a soft-deleted reply is left with. */
  const DeletedText := "[deleted]"

  function ThreadKey(t: Thread): string { t.id }
  function ReplyKey(r: Reply): string { r.id }
  function ThreadBumpedOn(t: Thread): int { t.bumpedOn }
  function ReplyCreatedOn(r: Reply): int { r.createdOn }
  function ViewBumpedOn(v: ThreadView): int { v.bumpedOn }
  function ViewCreatedOn(v: ReplyView): int { v.createdOn }

  /** The projection of one reply. */
  function ShowReply(r: Reply): ReplyView
  {
    ReplyView(r.id, r.text, r.createdOn)
  }

  /** The projection of an array of replies, element by element and in order. */
  function ShowReplies(rs: seq<Reply>): (vs: seq<ReplyView>)
    ensures |vs| == |rs|
    ensures forall i :: 0 <= i < |rs| ==> vs[i] == ShowReply(rs[i])
  {
    if rs == [] then [] else [ShowReply(rs[0])] + ShowReplies(rs[1..])
  }

  /** The projection of a thread that shows the replies `shown`; the reply
      count is always the length of the thread's whole `replies` array. */
  function ShowThread(t: Thread, shown: seq<Reply>): ThreadView
  {
    ThreadView(t.id, t.text, t.createdOn, t.bumpedOn, ShowReplies(shown), |t.replies|)
  }

  /** Two replies that agree on what is public. */
  predicate SamePublic(a: Reply, b: Reply)
  {
    a.id == b.id && a.text == b.text && a.createdOn == b.createdOn
  }

  /**
   * The views reveal nothing of passwords or report flags: threads that differ
   * only in those (and in the stored reply count), showing replies that differ
   * only in those, have equal views.
   */
  lemma ViewsHideSecrets(t: Thread, u: Thread, shown: seq<Reply>, other: seq<Reply>)
    requires t.id == u.id && t.text == u.text && t.createdOn == u.createdOn
    requires t.bumpedOn == u.bumpedOn && |t.replies| == |u.replies|
    requires |shown| == |other|
    requires forall i :: 0 <= i < |shown| ==> SamePublic(shown[i], other[i])
    ensures ShowThread(t, shown) == ShowThread(u, other)
  {
    var a, b := ShowReplies(shown), ShowReplies(other);
    assert forall i :: 0 <= i < |a| ==> a[i] == b[i];
  }
}
