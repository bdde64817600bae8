/**
 * The process-wide store behind the two routes `/api/threads/:board` and
 * `/api/replies/:board`: a map from board name to that board's threads, and
 * one method per request handler. Routing, request parsing and the HTTP reply
 * are left to the caller; a method returns what the handler sends (a text
 * body, a redirect location or a JSON value). The clock and the id generator
 * are parameters: `now` is the time the handler reads, `id` the id it makes.
 */
module Store {
  import opened Records
  import opened Boards

  const SuccessText := "success"
  const IncorrectPasswordText := "incorrect password"
  const ThreadNotFoundText := "thread not found"
  const ReplyNotFoundText := "reply not found"
  const ReportedText := "reported"

  /** What a writing handler answers. `TypeError` is the exception JavaScript
      throws when the thread-deleting handler indexes a board that does not exist. */
  datatype Outcome = Send(body: string) | Redirect(location: string) | TypeError

  /** What the single-thread view answers. */
  datatype ThreadPage = Json(thread: ThreadView) | Text(body: string)

  /**
   * The body of the listing handler on one board: sort the threads by bump
   * time, then for each of the first ten sort its replies by creation time and
   * project it with its first three replies. Returns the board as it is left
   * and the list that is sent.
   */
  method SortAndList(ts: seq<Thread>) returns (threads: seq<Thread>, view: seq<ThreadView>)
    ensures threads == Relist(ts)
    ensures view == Listing(threads)
  {
    threads := Sorting.SortDesc(ts, ThreadBumpedOn);
    ghost var sorted := threads;
    var n := Min(ListedThreads, |threads|);
    view := [];
    var k := 0;
    while k < n
      invariant 0 <= k <= n && |threads| == |sorted|
      invariant forall m :: 0 <= m < k ==> threads[m] == SortReplies(sorted[m])
      invariant forall m :: k <= m < |threads| ==> threads[m] == sorted[m]
      invariant |view| == k && forall m :: 0 <= m < k ==> view[m] == Summary(threads[m])
    {
      var thread := threads[k];
      var replies := Sorting.SortDesc(thread.replies, ReplyCreatedOn);
      threads := threads[k := thread.(replies := replies)];
      view := view + [ShowThread(threads[k], replies[..Min(ListedReplies, |replies|)])];
      k := k + 1;
    }
    RelistByIndex(ts, threads);
    ListingByIndex(threads, view);
  }

  class BoardStore {
    /** Board name to the board's threads, in stored order. */
    var boards: map<string, seq<Thread>>

    /** Every stored thread's reply count is the length of its reply array. */
    ghost predicate Valid()
      reads this
    {
      forall b :: b in boards ==> CountsAgree(boards[b])
    }

    constructor ()
      ensures Valid() && boards == map[]
    {
      boards := map[];
    }

    /**
     * GET /api/threads/:board. Sorts the board in place by bump time and the
     * replies of its first ten threads by creation time, then sends those ten
     * threads with three replies each. An unknown board gives an empty list
     * and is not created.
     */
    method ListThreads(board: string) returns (view: seq<ThreadView>)
      requires Valid()
      modifies this
      ensures Valid()
      ensures board !in old(boards) ==> view == [] && boards == old(boards)
      ensures board in old(boards) ==>
        && boards == old(boards)[board := Relist(old(boards)[board])]
        && view == Listing(boards[board])
    {
      if board !in boards {
        return [];
      }
      var threads;
      threads, view := SortAndList(boards[board]);
      RelistPermutes(boards[board]);
      boards := boards[board := threads];
    }

    /**
     * POST /api/threads/:board. Creates the board if it is absent and puts
     * the new thread in front of it, then redirects to the board's page.
     */
    method CreateThread(board: string, id: string, text: string, password: string, now: int)
      returns (out: Outcome)
      requires Valid()
      modifies this
      ensures Valid()
      ensures out == Redirect("/b/" + board + "/")
      ensures boards == old(boards)[board :=
        [NewThread(id, text, password, now)] + (if board in old(boards) then old(boards)[board] else [])]
    {
      var thread := NewThread(id, text, password, now);
      if board !in boards {
        boards := boards[board := []];
      }
      PostThread(boards[board], id, text, password, now, id);
      boards := boards[board := [thread] + boards[board]];
      out := Redirect("/b/" + board + "/");
    }

    /**
     * DELETE /api/threads/:board. Removes the first thread with the id when
     * the password matches; otherwise the board is left as it was.
     */
    method DeleteThread(board: string, threadId: string, password: string) returns (out: Outcome)
      requires Valid()
      modifies this
      ensures Valid()
      ensures board !in old(boards) ==> out == TypeError && boards == old(boards)
      ensures board in old(boards) ==>
        var ts := old(boards)[board];
        var i := ThreadIndex(ts, threadId);
        && (i == -1 ==> out == Send(ThreadNotFoundText) && boards == old(boards))
        && (0 <= i && ts[i].deletePassword == password ==>
              out == Send(SuccessText) && boards == old(boards)[board := RemoveAt(ts, i)])
        && (0 <= i && ts[i].deletePassword != password ==>
              out == Send(IncorrectPasswordText) && boards == old(boards))
    {
      if board !in boards {
        return TypeError;
      }
      var threads := boards[board];
      var i := ThreadIndex(threads, threadId);
      if i == -1 {
        return Send(ThreadNotFoundText);
      }
      if threads[i].deletePassword == password {
        boards := boards[board := RemoveAt(threads, i)];
        out := Send(SuccessText);
      } else {
        out := Send(IncorrectPasswordText);
      }
    }

    /** PUT /api/threads/:board. Flags the first thread with the id as reported. */
    method ReportThread(board: string, threadId: string) returns (out: Outcome)
      requires Valid()
      modifies this
      ensures Valid()
      ensures board !in old(boards) ==> out == Send(ThreadNotFoundText) && boards == old(boards)
      ensures board in old(boards) ==>
        var ts := old(boards)[board];
        var i := ThreadIndex(ts, threadId);
        && (i == -1 ==> out == Send(ThreadNotFoundText) && boards == old(boards))
        && (0 <= i ==> out == Send(ReportedText) && boards == old(boards)[board := ReportAt(ts, i)])
    {
      if board !in boards {
        return Send(ThreadNotFoundText);
      }
      var threads := boards[board];
      var i := ThreadIndex(threads, threadId);
      if i == -1 {
        return Send(ThreadNotFoundText);
      }
      boards := boards[board := ReportAt(threads, i)];
      out := Send(ReportedText);
    }

    /**
     * GET /api/replies/:board. Sends the first thread with the id with all of
     * its replies in stored order, or the text "thread not found". Changes nothing.
     */
    method ViewThread(board: string, threadId: string) returns (page: ThreadPage)
      ensures page.Text? <==> board !in boards || ThreadIndex(boards[board], threadId) == -1
      ensures page.Text? ==> page.body == ThreadNotFoundText
      ensures page.Json? ==>
        && board in boards && 0 <= ThreadIndex(boards[board], threadId)
        && var t := boards[board][ThreadIndex(boards[board], threadId)];
        && page.thread.id == t.id && page.thread.text == t.text
        && page.thread.createdOn == t.createdOn && page.thread.bumpedOn == t.bumpedOn
        && page.thread.replyCount == |page.thread.replies| == |t.replies|
        && forall k :: 0 <= k < |t.replies| ==> page.thread.replies[k] == ShowReply(t.replies[k])
    {
      if board !in boards {
        return Text(ThreadNotFoundText);
      }
      var threads := boards[board];
      var i := ThreadIndex(threads, threadId);
      if i == -1 {
        return Text(ThreadNotFoundText);
      }
      var thread := threads[i];
      page := Json(ShowThread(thread, thread.replies));
    }

    /**
     * POST /api/replies/:board. Appends a reply to the first thread with the
     * id, resets its count and bumps it, then redirects to the thread's page.
     */
    method CreateReply(board: string, threadId: string, id: string, text: string, password: string, now: int)
      returns (out: Outcome)
      requires Valid()
      modifies this
      ensures Valid()
      ensures board !in old(boards) ==> out == Send(ThreadNotFoundText) && boards == old(boards)
      ensures board in old(boards) ==>
        var ts := old(boards)[board];
        var i := ThreadIndex(ts, threadId);
        && (i == -1 ==> out == Send(ThreadNotFoundText) && boards == old(boards))
        && (0 <= i ==>
              && out == Redirect("/b/" + board + "/" + threadId)
              && boards == old(boards)[board := ts[i := AppendReply(ts[i], NewReply(id, text, password, now), now)]])
    {
      if board !in boards {
        return Send(ThreadNotFoundText);
      }
      var threads := boards[board];
      var i := ThreadIndex(threads, threadId);
      if i == -1 {
        return Send(ThreadNotFoundText);
      }
      var reply := NewReply(id, text, password, now);
      boards := boards[board := threads[i := AppendReply(threads[i], reply, now)]];
      out := Redirect("/b/" + board + "/" + threadId);
    }

    /**
     * DELETE /api/replies/:board. Overwrites the text of the first matching
     * reply of the first matching thread when the password matches.
     */
    method DeleteReply(board: string, threadId: string, replyId: string, password: string)
      returns (out: Outcome)
      requires Valid()
      modifies this
      ensures Valid()
      ensures board !in old(boards) ==> out == Send(ThreadNotFoundText) && boards == old(boards)
      ensures board in old(boards) ==>
        var ts := old(boards)[board];
        var i := ThreadIndex(ts, threadId);
        && (i == -1 ==> out == Send(ThreadNotFoundText) && boards == old(boards))
        && (0 <= i ==>
              var j := ReplyIndex(ts[i], replyId);
              && (j == -1 ==> out == Send(ReplyNotFoundText) && boards == old(boards))
              && (0 <= j && ts[i].replies[j].deletePassword == password ==>
                    out == Send(SuccessText) && boards == old(boards)[board := ts[i := SoftDeleteAt(ts[i], j)]])
              && (0 <= j && ts[i].replies[j].deletePassword != password ==>
                    out == Send(IncorrectPasswordText) && boards == old(boards)))
    {
      if board !in boards {
        return Send(ThreadNotFoundText);
      }
      var threads := boards[board];
      var i := ThreadIndex(threads, threadId);
      if i == -1 {
        return Send(ThreadNotFoundText);
      }
      var j := ReplyIndex(threads[i], replyId);
      if j == -1 {
        return Send(ReplyNotFoundText);
      }
      if threads[i].replies[j].deletePassword == password {
        boards := boards[board := threads[i := SoftDeleteAt(threads[i], j)]];
        out := Send(SuccessText);
      } else {
        out := Send(IncorrectPasswordText);
      }
    }

    /** PUT /api/replies/:board. Flags the first matching reply as reported. */
    method ReportReply(board: string, threadId: string, replyId: string) returns (out: Outcome)
      requires Valid()
      modifies this
      ensures Valid()
      ensures board !in old(boards) ==> out == Send(ThreadNotFoundText) && boards == old(boards)
      ensures board in old(boards) ==>
        var ts := old(boards)[board];
        var i := ThreadIndex(ts, threadId);
        && (i == -1 ==> out == Send(ThreadNotFoundText) && boards == old(boards))
        && (0 <= i ==>
              var j := ReplyIndex(ts[i], replyId);
              && (j == -1 ==> out == Send(ReplyNotFoundText) && boards == old(boards))
              && (0 <= j ==>
                    out == Send(ReportedText) && boards == old(boards)[board := ts[i := ReportReplyAt(ts[i], j)]]))
    {
      if board !in boards {
        return Send(ThreadNotFoundText);
      }
      var threads := boards[board];
      var i := ThreadIndex(threads, threadId);
      if i == -1 {
        return Send(ThreadNotFoundText);
      }
      var j := ReplyIndex(threads[i], replyId);
      if j == -1 {
        return Send(ReplyNotFoundText);
      }
      boards := boards[board := threads[i := ReportReplyAt(threads[i], j)]];
      out := Send(ReportedText);
    }
  }
}
