/**
 * What each handler does to one board (a sequence of threads) or to one
 * thread, as functions on values, with the lemmas that state what the handlers
 * promise: listing bounds and order, the frame of every update, idempotent
 * reporting, and that every thread's stored reply count keeps agreeing with
 * its reply array.
 */
module Boards {
  import opened Records
  import opened Sorting
  import opened Lookup

  /** The listing shows at most this many threads ... */
  const ListedThreads := 10
  /** ... and at most this many replies of each. */
  const ListedReplies := 3

  function Min(a: int, b: int): int { if a <= b then a else b }

  /** `threads.findIndex(t => t._id === id)`, also what `threads.find` finds. */
  function ThreadIndex(ts: seq<Thread>, id: string): int
  {
    FindIndex(ts, ThreadKey, id)
  }

  /** `thread.replies.find(r => r._id === id)`, as an index. */
  function ReplyIndex(t: Thread, id: string): int
  {
    FindIndex(t.replies, ReplyKey, id)
  }

  /** Every thread's stored reply count is the length of its reply array. */
  predicate CountsAgree(ts: seq<Thread>)
  {
    forall i :: 0 <= i < |ts| ==> ts[i].replyCount == |ts[i].replies|
  }

  /** The object the thread-creating handler builds. */
  function NewThread(id: string, text: string, password: string, now: int): Thread
  {
    Thread(id, text, now, now, false, password, [], 0)
  }

  /** The object the reply-creating handler builds. */
  function NewReply(id: string, text: string, password: string, now: int): Reply
  {
    Reply(id, text, now, password, false)
  }

  /** `threads.splice(i, 1)`: exactly the thread at i goes, the others keep their order. */
  function RemoveAt(ts: seq<Thread>, i: int): (r: seq<Thread>)
    requires 0 <= i < |ts|
    ensures |r| == |ts| - 1
    ensures forall j :: 0 <= j < i ==> r[j] == ts[j]
    ensures forall j :: i <= j < |r| ==> r[j] == ts[j + 1]
    ensures multiset(r) + multiset{ts[i]} == multiset(ts)
    ensures CountsAgree(ts) ==> CountsAgree(r)
  {
    assert ts == ts[..i] + [ts[i]] + ts[i + 1..];
    ts[..i] + ts[i + 1..]
  }

  /** `thread.reported = true` on the thread at i. */
  function ReportAt(ts: seq<Thread>, i: int): (r: seq<Thread>)
    requires 0 <= i < |ts|
    ensures |r| == |ts| && r[i].reported
    ensures r[i].(reported := ts[i].reported) == ts[i]
    ensures forall j :: 0 <= j < |ts| && j != i ==> r[j] == ts[j]
    ensures CountsAgree(ts) ==> CountsAgree(r)
  {
    ts[i := ts[i].(reported := true)]
  }

  /** `replies.push(reply)`, then the count and the bump time are reset. */
  function AppendReply(t: Thread, reply: Reply, now: int): (u: Thread)
    ensures |u.replies| == |t.replies| + 1
    ensures u.replies[..|t.replies|] == t.replies && u.replies[|t.replies|] == reply
    ensures u.replyCount == |u.replies| && u.bumpedOn == now
    ensures u.(replies := t.replies, replyCount := t.replyCount, bumpedOn := t.bumpedOn) == t
  {
    var replies := t.replies + [reply];
    t.(replies := replies, replyCount := |replies|, bumpedOn := now)
  }

  /** `reply.text = '[deleted]'` on the reply at j: the reply stays, only its text changes. */
  function SoftDeleteAt(t: Thread, j: int): (u: Thread)
    requires 0 <= j < |t.replies|
    ensures |u.replies| == |t.replies| && u.replyCount == t.replyCount
    ensures u.replies[j].text == DeletedText
    ensures u.replies[j].(text := t.replies[j].text) == t.replies[j]
    ensures forall k :: 0 <= k < |t.replies| && k != j ==> u.replies[k] == t.replies[k]
    ensures u.(replies := t.replies) == t
  {
    t.(replies := t.replies[j := t.replies[j].(text := DeletedText)])
  }

  /** `reply.reported = true` on the reply at j. */
  function ReportReplyAt(t: Thread, j: int): (u: Thread)
    requires 0 <= j < |t.replies|
    ensures |u.replies| == |t.replies| && u.replies[j].reported
    ensures u.replies[j].(reported := t.replies[j].reported) == t.replies[j]
    ensures forall k :: 0 <= k < |t.replies| && k != j ==> u.replies[k] == t.replies[k]
    ensures u.(replies := t.replies) == t
  {
    t.(replies := t.replies[j := t.replies[j].(reported := true)])
  }

  /** `thread.replies.sort(...)`: newest reply first. */
  function SortReplies(t: Thread): Thread
  {
    t.(replies := SortDesc(t.replies, ReplyCreatedOn))
  }

  /** The board as the listing handler leaves it: sorted by bump time, newest
      first, and the replies of the first ten threads (the ones the `.map`
      callback visits) sorted newest first. */
  function Relist(ts: seq<Thread>): seq<Thread>
  {
    var s := SortDesc(ts, ThreadBumpedOn);
    seq(|s|, k requires 0 <= k < |s| => if k < ListedThreads then SortReplies(s[k]) else s[k])
  }

  /** One thread of the listing: its first three replies, the full count. */
  function Summary(t: Thread): ThreadView
  {
    ShowThread(t, t.replies[..Min(ListedReplies, |t.replies|)])
  }

  /** The listing sent for a board already relisted: its first ten threads. */
  function Listing(ts: seq<Thread>): seq<ThreadView>
  {
    seq(Min(ListedThreads, |ts|), k requires 0 <= k < Min(ListedThreads, |ts|) => Summary(ts[k]))
  }

  /** A board that agrees with the relisted board thread by thread is it. */
  lemma RelistByIndex(ts: seq<Thread>, r: seq<Thread>)
    requires var s := SortDesc(ts, ThreadBumpedOn);
      && |r| == |s|
      && (forall m :: 0 <= m < Min(ListedThreads, |s|) ==> r[m] == SortReplies(s[m]))
      && (forall m :: Min(ListedThreads, |s|) <= m < |s| ==> r[m] == s[m])
    ensures r == Relist(ts)
  {
  }

  /** A list that agrees with the listing thread by thread is it. */
  lemma ListingByIndex(r: seq<Thread>, v: seq<ThreadView>)
    requires |v| == Min(ListedThreads, |r|)
    requires forall m :: 0 <= m < |v| ==> v[m] == Summary(r[m])
    ensures v == Listing(r)
  {
  }

  /** Replacing a thread by one with the same id leaves every lookup as it was. */
  lemma UpdateKeepsLookup(ts: seq<Thread>, i: int, u: Thread, id: string)
    requires 0 <= i < |ts| && u.id == ts[i].id
    ensures ThreadIndex(ts[i := u], id) == ThreadIndex(ts, id)
  {
    FindIndexSeesOnlyKeys(ts[i := u], ts, ThreadKey, id);
  }

  /**
   * Listing rearranges and changes no field: the board is a permutation of
   * what it was, each thread differs from its sorted self at most in the order
   * of its replies, which is a permutation too, and threads past the tenth are
   * left exactly as sorted. Reply counts keep agreeing.
   */
  lemma RelistPermutes(ts: seq<Thread>)
    ensures var s, r := SortDesc(ts, ThreadBumpedOn), Relist(ts);
      && |r| == |ts|
      && multiset(s) == multiset(ts)
      && (forall k :: 0 <= k < |r| ==> r[k].(replies := s[k].replies) == s[k])
      && (forall k :: 0 <= k < |r| ==> multiset(r[k].replies) == multiset(s[k].replies))
      && (forall k :: ListedThreads <= k < |r| ==> r[k] == s[k])
    ensures CountsAgree(ts) ==> CountsAgree(Relist(ts))
  {
    var s, r := SortDesc(ts, ThreadBumpedOn), Relist(ts);
    forall k | 0 <= k < |r|
      ensures r[k].(replies := s[k].replies) == s[k]
      ensures multiset(r[k].replies) == multiset(s[k].replies)
      ensures r[k].replyCount == s[k].replyCount && |r[k].replies| == |s[k].replies|
    {
      assert r[k] == if k < ListedThreads then SortReplies(s[k]) else s[k];
    }
    if CountsAgree(ts) {
      SortKeepsCounts(ts);
    }
  }

  /** Sorting the threads keeps every thread, so reply counts keep agreeing. */
  lemma SortKeepsCounts(ts: seq<Thread>)
    requires CountsAgree(ts)
    ensures CountsAgree(SortDesc(ts, ThreadBumpedOn))
  {
    var s := SortDesc(ts, ThreadBumpedOn);
    forall k | 0 <= k < |s| ensures s[k].replyCount == |s[k].replies| {
      assert s[k] in multiset(ts);
      var j :| 0 <= j < |ts| && ts[j] == s[k];
    }
  }

  /**
   * The listing of a relisted board: at most ten threads, newest bump first,
   * none of the threads left out bumped later than one shown; each shows at
   * most three replies, newest first, none left out newer than one shown; the
   * count is that of all the thread's replies.
   */
  lemma ListingShape(ts: seq<Thread>)
    ensures var v := Listing(Relist(ts));
      |v| == Min(ListedThreads, |ts|) && SortedDesc(v, ViewBumpedOn)
    ensures var r, v := Relist(ts), Listing(Relist(ts));
      forall k, j :: 0 <= k < |v| <= j < |r| ==> v[k].bumpedOn >= r[j].bumpedOn
    ensures var r, v := Relist(ts), Listing(Relist(ts));
      forall k :: 0 <= k < |v| ==>
        && v[k].id == r[k].id && v[k].text == r[k].text && v[k].createdOn == r[k].createdOn
        && v[k].bumpedOn == r[k].bumpedOn
        && v[k].replyCount == |r[k].replies|
        && v[k].replies == ShowReplies(r[k].replies[..Min(ListedReplies, |r[k].replies|)])
        && |v[k].replies| == Min(ListedReplies, |r[k].replies|)
        && SortedDesc(v[k].replies, ViewCreatedOn)
        && (forall m, n :: 0 <= m < |v[k].replies| <= n < |r[k].replies| ==>
              v[k].replies[m].createdOn >= r[k].replies[n].createdOn)
  {
    var s, r, v := SortDesc(ts, ThreadBumpedOn), Relist(ts), Listing(Relist(ts));
    assert forall k :: 0 <= k < |r| ==> r[k].bumpedOn == s[k].bumpedOn;
    forall k | 0 <= k < |v|
      ensures |v[k].replies| == Min(ListedReplies, |r[k].replies|)
      ensures SortedDesc(v[k].replies, ViewCreatedOn)
      ensures forall m, n :: 0 <= m < |v[k].replies| <= n < |r[k].replies| ==>
                v[k].replies[m].createdOn >= r[k].replies[n].createdOn
    {
      assert r[k] == SortReplies(s[k]) && v[k] == Summary(r[k]);
      SummaryShape(s[k]);
    }
  }

  /** One listed thread: at most three replies, newest first, none left out
      newer than one shown. */
  lemma SummaryShape(u: Thread)
    ensures var t := SortReplies(u); var v := Summary(t);
      && |v.replies| == Min(ListedReplies, |t.replies|)
      && SortedDesc(v.replies, ViewCreatedOn)
      && forall m, n :: 0 <= m < |v.replies| <= n < |t.replies| ==>
           v.replies[m].createdOn >= t.replies[n].createdOn
  {
    var rs := SortDesc(u.replies, ReplyCreatedOn);
    var shown := rs[..Min(ListedReplies, |rs|)];
    var vs := ShowReplies(shown);
    assert Summary(SortReplies(u)).replies == vs;
    forall m, n | 0 <= m < n < |vs| ensures ViewCreatedOn(vs[m]) >= ViewCreatedOn(vs[n]) {
      assert ReplyCreatedOn(rs[m]) >= ReplyCreatedOn(rs[n]);
    }
    forall m, n | 0 <= m < |vs| <= n < |rs| ensures vs[m].createdOn >= rs[n].createdOn {
      assert ReplyCreatedOn(rs[m]) >= ReplyCreatedOn(rs[n]);
    }
  }

  /**
   * A new thread goes in front with no replies, a zero count and no report;
   * the others follow in their old order. A lookup of its id finds it even if
   * an older thread has the same id; any other id is found one place later.
   */
  lemma {:induction false} PostThread(ts: seq<Thread>, id: string, text: string, password: string, now: int, other: string)
    ensures var r := [NewThread(id, text, password, now)] + ts;
      && r[0].replies == [] && r[0].replyCount == 0 && !r[0].reported
      && r[0].createdOn == now && r[0].bumpedOn == now
      && r[1..] == ts
      && ThreadIndex(r, id) == 0
      && (other != id ==> ThreadIndex(r, other) == if ThreadIndex(ts, other) == -1 then -1 else ThreadIndex(ts, other) + 1)
    ensures CountsAgree(ts) ==> CountsAgree([NewThread(id, text, password, now)] + ts)
  {
    var r := [NewThread(id, text, password, now)] + ts;
    assert r[1..] == ts;
  }

  /** Reporting a thread twice leaves the board as reporting it once. */
  lemma ReportThreadIdempotent(ts: seq<Thread>, id: string)
    requires 0 <= ThreadIndex(ts, id)
    ensures var i := ThreadIndex(ts, id);
      ThreadIndex(ReportAt(ts, i), id) == i && ReportAt(ReportAt(ts, i), i) == ReportAt(ts, i)
  {
    var i := ThreadIndex(ts, id);
    UpdateKeepsLookup(ts, i, ts[i].(reported := true), id);
  }

  /** Reporting a reply twice leaves the board as reporting it once. */
  lemma ReportReplyIdempotent(ts: seq<Thread>, threadId: string, replyId: string)
    requires 0 <= ThreadIndex(ts, threadId)
    requires 0 <= ReplyIndex(ts[ThreadIndex(ts, threadId)], replyId)
    ensures var i := ThreadIndex(ts, threadId);
      var j := ReplyIndex(ts[i], replyId);
      var once := ts[i := ReportReplyAt(ts[i], j)];
      && ThreadIndex(once, threadId) == i
      && ReplyIndex(once[i], replyId) == j
      && once[i := ReportReplyAt(once[i], j)] == once
  {
    var i := ThreadIndex(ts, threadId);
    var j := ReplyIndex(ts[i], replyId);
    var u := ReportReplyAt(ts[i], j);
    UpdateKeepsLookup(ts, i, u, threadId);
    assert u.replies[j].id == ts[i].replies[j].id;
    FindIndexSeesOnlyKeys(u.replies, ts[i].replies, ReplyKey, replyId);
    assert ReportReplyAt(u, j).replies == u.replies;
  }

  /** After a reply is added, both views of the thread count one more reply,
      and the single-thread view shows it last. */
  lemma AddReplyViews(t: Thread, reply: Reply, now: int)
    ensures var u := AppendReply(t, reply, now);
      && Summary(u).replyCount == Summary(t).replyCount + 1
      && ShowThread(u, u.replies).replyCount == ShowThread(t, t.replies).replyCount + 1
      && ShowThread(u, u.replies).replies == ShowThread(t, t.replies).replies + [ShowReply(reply)]
      && Summary(u).bumpedOn == now
  {
    var u := AppendReply(t, reply, now);
    assert ShowReplies(u.replies) == ShowReplies(t.replies) + [ShowReply(reply)];
  }
}
