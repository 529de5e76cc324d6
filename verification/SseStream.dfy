/**
 Streaming a run's journal to a client while the journal is being written.

 One `Round` is one turn of the streaming loop: the journal and status as the
 page read finds them (one snapshot), how many sends the client still takes, and
 what ends the wait. A script of rounds is any interleaving of appends,
 wake-ups and heartbeats, cut off anywhere.
 */
module SseStream {
  import opened Sequences

  datatype Event = Event(seqNo: int, data: string)

  datatype Frame = Data(event: Event) | HeartbeatComment | TerminalComment

  /** `WokenByOther` is a wake-up for another run, `Lagged` a receiver that missed some. */
  datatype Wake = Woken | WokenByOther | Lagged | BusClosed | HeartbeatDue

  datatype Round = Round(readable: bool, journal: seq<Event>, terminal: bool, sends: nat, wake: Wake)

  datatype End = StillStreaming | StoreFailed | ClientGone | BusGone | Finished

  ghost predicate Ordered(journal: seq<Event>) {
    forall i, j | 0 <= i < j < |journal| :: journal[i].seqNo < journal[j].seqNo
  }

  /** Journals only grow, and one whose run is terminal grows no more. */
  ghost predicate Growing(script: seq<Round>, n: nat)
    requires n <= |script|
  {
    n > 0 ==>
      && Growing(script, n - 1)
      && Ordered(script[n - 1].journal)
      && (n > 1 ==>
            && script[n - 2].journal <= script[n - 1].journal
            && (script[n - 2].terminal ==> script[n - 1].terminal && script[n - 1].journal == script[n - 2].journal))
  }

  lemma {:induction false} GrowingAt(script: seq<Round>, n: nat, k: nat)
    requires k <= n <= |script| && Growing(script, n)
    ensures Growing(script, k)
    decreases n - k
  {
    if k < n {
      GrowingAt(script, n - 1, k);
    }
  }

  /** Every entry after the cursor, oldest first. */
  function After(journal: seq<Event>, cursor: int): seq<Event> {
    if journal == [] then []
    else
      After(journal[..|journal| - 1], cursor) +
      if journal[|journal| - 1].seqNo > cursor then [journal[|journal| - 1]] else []
  }

  /** The page read: as many of those as fit. */
  function Page(journal: seq<Event>, cursor: int, limit: nat): seq<Event> {
    var all := After(journal, cursor);
    if |all| <= limit then all else all[..limit]
  }

  /** The journal entries among the frames. */
  function Events(frames: seq<Frame>): seq<Event> {
    if frames == [] then []
    else
      Events(frames[..|frames| - 1]) +
      if frames[|frames| - 1].Data? then [frames[|frames| - 1].event] else []
  }

  // ---------------------------------------------------------- journal and cursor

  lemma {:induction false} AfterElements(journal: seq<Event>, cursor: int)
    ensures forall e :: e in After(journal, cursor) <==> e in journal && e.seqNo > cursor
    decreases |journal|
  {
    if journal != [] {
      AfterElements(journal[..|journal| - 1], cursor);
      SplitLast(journal);
    }
  }

  lemma {:induction false} AfterIsAbove(journal: seq<Event>, cursor: int)
    ensures forall i | 0 <= i < |After(journal, cursor)| :: After(journal, cursor)[i].seqNo > cursor
    decreases |journal|
  {
    if journal != [] {
      AfterIsAbove(journal[..|journal| - 1], cursor);
    }
  }

  lemma {:induction false} AfterIsOrdered(journal: seq<Event>, cursor: int)
    requires Ordered(journal)
    ensures Ordered(After(journal, cursor))
    decreases |journal|
  {
    if journal != [] {
      var init, last := journal[..|journal| - 1], journal[|journal| - 1];
      AfterIsOrdered(init, cursor);
      forall e | e in After(init, cursor) ensures e.seqNo < last.seqNo {
        AfterElements(init, cursor);
      }
    }
  }

  /** Appending to the journal appends to what follows a cursor. */
  lemma {:induction false} AfterGrows(journal: seq<Event>, longer: seq<Event>, cursor: int)
    requires journal <= longer
    ensures After(journal, cursor) <= After(longer, cursor)
    decreases |longer|
  {
    if |journal| < |longer| {
      AfterGrows(journal, longer[..|longer| - 1], cursor);
    } else {
      assert journal == longer;
    }
  }

  /** The cursor after the first `n` of these entries. */
  function CursorAt(entries: seq<Event>, since: int, n: nat): int
    requires n <= |entries|
  {
    if n == 0 then since else entries[n - 1].seqNo
  }

  lemma {:induction false} AfterMovedCursor(journal: seq<Event>, since: int, cursor: int)
    requires Ordered(journal) && since <= cursor
    ensures After(After(journal, since), cursor) == After(journal, cursor)
    decreases |journal|
  {
    if journal != [] {
      var init, last := journal[..|journal| - 1], journal[|journal| - 1];
      AfterMovedCursor(init, since, cursor);
      if last.seqNo > since {
        assert After(journal, since)[..|After(journal, since)| - 1] == After(init, since);
      } else {
        assert After(journal, since) == After(init, since);
      }
    }
  }

  lemma {:induction false} AfterOwnEntry(entries: seq<Event>, since: int, n: nat)
    requires Ordered(entries) && n <= |entries|
    requires forall i | 0 <= i < |entries| :: entries[i].seqNo > since
    ensures After(entries, CursorAt(entries, since, n)) == entries[n..]
  {
    var cursor := CursorAt(entries, since, n);
    AllBefore(entries, n, cursor);
    AllBehind(entries, n, cursor);
  }

  lemma {:induction false} AllBefore(entries: seq<Event>, n: nat, cursor: int)
    requires n <= |entries| && forall i | 0 <= i < n :: entries[i].seqNo <= cursor
    ensures After(entries[..n], cursor) == []
    decreases n
  {
    if n > 0 {
      AllBefore(entries, n - 1, cursor);
      assert entries[..n][..n - 1] == entries[..n - 1];
    }
  }

  /** Entries from `n` on are all behind the cursor, and those before are not. */
  lemma {:induction false} AllBehind(entries: seq<Event>, n: nat, cursor: int)
    requires n <= |entries| && forall i | n <= i < |entries| :: entries[i].seqNo > cursor
    requires After(entries[..n], cursor) == []
    ensures After(entries, cursor) == entries[n..]
    decreases |entries|
  {
    if n == |entries| {
      TakeAll(entries);
    } else {
      var init := entries[..|entries| - 1];
      assert init[..n] == entries[..n];
      AllBehind(init, n, cursor);
      DropSplitsLast(entries, n);
    }
  }

  lemma DropSplitsLast(entries: seq<Event>, n: nat)
    requires n < |entries|
    ensures entries[n..] == entries[..|entries| - 1][n..] + [entries[|entries| - 1]]
  {
  }

  /** Reading again from where the last frame left off gives exactly what has not been sent. */
  lemma {:induction false} ResumesWithoutGap(journal: seq<Event>, since: int, n: nat)
    requires Ordered(journal) && n <= |After(journal, since)|
    ensures After(journal, CursorAt(After(journal, since), since, n)) == After(journal, since)[n..]
  {
    var all := After(journal, since);
    AfterIsOrdered(journal, since);
    AfterIsAbove(journal, since);
    var cursor := CursorAt(all, since, n);
    AfterMovedCursor(journal, since, cursor);
    AfterOwnEntry(all, since, n);
  }

  // -------------------------------------------------------------------- the loop

  /** The first `n` entries after `since` are what has been sent, and the cursor stands at the last of them. */
  ghost predicate Sent(journal: seq<Event>, since: int, frames: seq<Frame>, cursor: int) {
    && Events(frames) <= After(journal, since)
    && cursor == CursorAt(After(journal, since), since, |Events(frames)|)
  }

  lemma {:induction false} SentStays(journal: seq<Event>, longer: seq<Event>, since: int, frames: seq<Frame>, cursor: int)
    requires journal <= longer && Sent(journal, since, frames, cursor)
    ensures Sent(longer, since, frames, cursor)
  {
    AfterGrows(journal, longer, since);
  }

  ghost predicate NoNotice(frames: seq<Frame>) {
    forall i | 0 <= i < |frames| :: !frames[i].TerminalComment?
  }

  ghost predicate NoticeOnlyLast(frames: seq<Frame>) {
    forall i | 0 <= i < |frames| - 1 :: !frames[i].TerminalComment?
  }

  lemma EventsOfAppend(frames: seq<Frame>, f: Frame)
    ensures Events(frames + [f]) == Events(frames) + if f.Data? then [f.event] else []
  {
  }

  /** Journal entries as frames, one each. */
  function Framed(events: seq<Event>): seq<Frame> {
    if events == [] then [] else Framed(events[..|events| - 1]) + [Data(events[|events| - 1])]
  }

  lemma {:induction false} FramedIndex(events: seq<Event>)
    ensures |Framed(events)| == |events| && forall i | 0 <= i < |events| :: Framed(events)[i] == Data(events[i])
    decreases |events|
  {
    if events != [] {
      FramedIndex(events[..|events| - 1]);
    }
  }

  lemma FramedGrows(events: seq<Event>, i: nat, frames: seq<Frame>)
    requires i < |events|
    ensures frames + Framed(events[..i + 1]) == frames + Framed(events[..i]) + [Data(events[i])]
    ensures events[..i + 1] == events[..i] + [events[i]]
  {
    assert events[..i + 1][..i] == events[..i];
    Associate(frames, Framed(events[..i]), [Data(events[i])]);
  }

  method SendPage(journal: seq<Event>, since: int, page: seq<Event>, sends: nat, frames0: seq<Frame>, cursor0: int)
    returns (frames: seq<Frame>, cursor: int, gone: bool)
    requires Ordered(journal) && Sent(journal, since, frames0, cursor0)
    requires page <= After(journal, since)[|Events(frames0)|..]
    requires NoNotice(frames0)
    ensures Sent(journal, since, frames, cursor) && NoNotice(frames)
    ensures frames == frames0 + Framed(page[..if sends < |page| then sends else |page|])
    ensures gone <==> sends < |page|
    ensures Events(frames) == Events(frames0) + page[..if sends < |page| then sends else |page|]
  {
    frames, cursor, gone := frames0, cursor0, false;
    for i := 0 to |page|
      invariant i <= sends
      invariant frames == frames0 + Framed(page[..i]) && NoNotice(frames)
      invariant Events(frames) == Events(frames0) + page[..i]
      invariant cursor == CursorAt(After(journal, since), since, |Events(frames)|)
    {
      if i == sends {
        gone := true;
        return;
      }
      EventsOfAppend(frames, Data(page[i]));
      FramedGrows(page, i, frames0);
      frames := frames + [Data(page[i])];
      cursor := page[i].seqNo;
      assert After(journal, since)[|Events(frames0)| + i] == page[i];
    }
  }

  /** How many entries the page read finds, `sent` having been sent before. */
  ghost function PageLength(round: Round, since: int, pageSize: nat, sent: nat): nat {
    var all := |After(round.journal, since)|;
    if all <= sent then 0 else if all - sent < pageSize then all - sent else pageSize
  }

  /** How many of those the client takes. */
  ghost function Taken(round: Round, since: int, pageSize: nat, sent: nat): nat {
    var page := PageLength(round, since, pageSize, sent);
    if round.sends < page then round.sends else page
  }

  /**
   How a round ends, in terms of what it finds. A client is gone when it takes
   fewer sends than the page has entries, or not the heartbeat that is due. A
   short page of a terminal run finishes, and one of any other run ends the
   stream only when the bus is closed.
   */
  ghost predicate EndsWith(round: Round, since: int, pageSize: nat, sent: nat, end: End) {
    var page := PageLength(round, since, pageSize, sent);
    && (end == StoreFailed <==> !round.readable)
    && (end == ClientGone <==>
          round.readable &&
          (round.sends < page ||
           (page < pageSize && !round.terminal && round.wake == HeartbeatDue && round.sends == page)))
    && (end == Finished <==> round.readable && page <= round.sends && page < pageSize && round.terminal)
    && (end == BusGone <==>
          round.readable && page <= round.sends && page < pageSize && !round.terminal && round.wake == BusClosed)
  }

  /** What follows a short page: the notice of a terminal run, or a heartbeat that is due, if the client takes one more send. */
  ghost function Trailer(round: Round, since: int, pageSize: nat, sent: nat): seq<Frame> {
    var page := PageLength(round, since, pageSize, sent);
    if page == pageSize || round.sends <= page then []
    else if round.terminal then [TerminalComment]
    else if round.wake == HeartbeatDue then [HeartbeatComment]
    else []
  }

  /** The end of a turn after a short page, with `left` sends still taken: the notice, or the wait. */
  method AfterShortPage(round: Round, left: nat) returns (trailer: seq<Frame>, end: End)
    ensures trailer ==
            if left == 0 then []
            else if round.terminal then [TerminalComment]
            else if round.wake == HeartbeatDue then [HeartbeatComment]
            else []
    ensures end == Finished <==> round.terminal
    ensures end == BusGone <==> !round.terminal && round.wake == BusClosed
    ensures end == ClientGone <==> !round.terminal && round.wake == HeartbeatDue && left == 0
    ensures end != StoreFailed
  {
    trailer := [];
    if round.terminal {
      if left > 0 {
        trailer := [TerminalComment];
      }
      return trailer, Finished;
    }
    match round.wake {
      case BusClosed =>
        return trailer, BusGone;
      case HeartbeatDue =>
        if left == 0 {
          return trailer, ClientGone;
        }
        return [HeartbeatComment], StillStreaming;
      case _ =>
        return trailer, StillStreaming;
    }
  }

  /** The frames a turn adds: as much of the page as the client takes, and what follows it. */
  ghost function TurnFrames(round: Round, since: int, pageSize: nat, sent: nat): seq<Frame> {
    var all, taken := After(round.journal, since), Taken(round, since, pageSize, sent);
    if sent + taken <= |all| then Framed(all[sent..sent + taken]) + Trailer(round, since, pageSize, sent) else []
  }

  /** One turn of the loop, once its page has been read. */
  method Turn(round: Round, since: int, pageSize: nat, frames0: seq<Frame>, cursor0: int)
    returns (frames: seq<Frame>, cursor: int, end: End)
    requires Ordered(round.journal) && pageSize >= 1 && round.readable
    requires Sent(round.journal, since, frames0, cursor0) && NoNotice(frames0)
    ensures Sent(round.journal, since, frames, cursor)
    ensures EndsWith(round, since, pageSize, |Events(frames0)|, end)
    ensures frames == frames0 + TurnFrames(round, since, pageSize, |Events(frames0)|)
    ensures |Events(frames)| == |Events(frames0)| + Taken(round, since, pageSize, |Events(frames0)|)
    ensures !end.Finished? ==> NoNotice(frames)
    ensures NoticeOnlyLast(frames)
  {
    var page, gone;
    frames, cursor, page, gone := SendNext(round, since, pageSize, frames0, cursor0);
    var trailer := [];
    if gone {
      end := ClientGone;
    } else if page >= pageSize {
      end := StillStreaming;
    } else {
      trailer, end := AfterShortPage(round, round.sends - page);
    }
    TrailerHasNoEvents(frames, trailer);
    EndOfTurn(round, since, pageSize, |Events(frames0)|, frames0, trailer, end);
    frames := frames + trailer;
  }

  /** How a turn ends and what it sends, case by case. */
  lemma EndOfTurn(round: Round, since: int, pageSize: nat, sent: nat, frames0: seq<Frame>, trailer: seq<Frame>, end: End)
    requires round.readable && end != StoreFailed
    requires sent + Taken(round, since, pageSize, sent) <= |After(round.journal, since)|
    requires var page := PageLength(round, since, pageSize, sent);
             if round.sends < page then end == ClientGone && trailer == []
             else if page >= pageSize then end == StillStreaming && trailer == []
             else
               && trailer == (if round.sends == page then []
                              else if round.terminal then [TerminalComment]
                              else if round.wake == HeartbeatDue then [HeartbeatComment]
                              else [])
               && (end == Finished <==> round.terminal)
               && (end == BusGone <==> !round.terminal && round.wake == BusClosed)
               && (end == ClientGone <==> !round.terminal && round.wake == HeartbeatDue && round.sends == page)
    ensures EndsWith(round, since, pageSize, sent, end)
    ensures var taken := Taken(round, since, pageSize, sent);
            frames0 + Framed(After(round.journal, since)[sent..sent + taken]) + trailer ==
            frames0 + TurnFrames(round, since, pageSize, sent)
  {
    var taken := Taken(round, since, pageSize, sent);
    Associate(frames0, Framed(After(round.journal, since)[sent..sent + taken]), trailer);
    assert trailer == Trailer(round, since, pageSize, sent);
  }

  /** Reads a page from the cursor on and sends it, as far as the client takes it. */
  method SendNext(round: Round, since: int, pageSize: nat, frames0: seq<Frame>, cursor0: int)
    returns (frames: seq<Frame>, cursor: int, length: nat, gone: bool)
    requires Ordered(round.journal) && Sent(round.journal, since, frames0, cursor0) && NoNotice(frames0)
    ensures Sent(round.journal, since, frames, cursor) && NoNotice(frames)
    ensures length == PageLength(round, since, pageSize, |Events(frames0)|)
    ensures gone <==> round.sends < length
    ensures var sent, taken := |Events(frames0)|, Taken(round, since, pageSize, |Events(frames0)|);
            && sent + taken <= |After(round.journal, since)|
            && frames == frames0 + Framed(After(round.journal, since)[sent..sent + taken])
            && |Events(frames)| == sent + taken
  {
    ResumesWithoutGap(round.journal, since, |Events(frames0)|);
    var page := Page(round.journal, cursor0, pageSize);
    PageIsNext(round, since, pageSize, |Events(frames0)|, cursor0);
    length := |page|;
    frames, cursor, gone := SendPage(round.journal, since, page, round.sends, frames0, cursor0);
    SliceOfRest(After(round.journal, since), |Events(frames0)|, page, if round.sends < |page| then round.sends else |page|);
  }

  lemma PageIsNext(round: Round, since: int, pageSize: nat, sent: nat, cursor: int)
    requires sent <= |After(round.journal, since)|
    requires After(round.journal, cursor) == After(round.journal, since)[sent..]
    ensures |Page(round.journal, cursor, pageSize)| == PageLength(round, since, pageSize, sent)
    ensures Page(round.journal, cursor, pageSize) <= After(round.journal, since)[sent..]
  {
  }

  lemma SliceOfRest(all: seq<Event>, sent: nat, page: seq<Event>, n: nat)
    requires sent <= |all| && page <= all[sent..] && n <= |page|
    ensures page[..n] == all[sent..sent + n]
  {
  }

  lemma AddNothing(frames: seq<Frame>)
    ensures frames + [] == frames
  {
  }

  lemma {:induction false} TrailerHasNoEvents(frames: seq<Frame>, trailer: seq<Frame>)
    requires trailer == [] || trailer == [HeartbeatComment] || trailer == [TerminalComment]
    ensures Events(frames + trailer) == Events(frames)
    ensures NoNotice(frames) ==> NoticeOnlyLast(frames + trailer)
    ensures NoNotice(frames) && trailer != [TerminalComment] ==> NoNotice(frames + trailer)
  {
    if trailer == [] {
      AddNothing(frames);
    } else {
      EventsOfAppend(frames, trailer[0]);
    }
  }

  /** How many entries `n` rounds send, none of them ending the stream. */
  ghost function SentAfter(script: seq<Round>, since: int, pageSize: nat, n: nat): nat
    requires n <= |script|
  {
    if n == 0 then 0
    else
      var sent := SentAfter(script, since, pageSize, n - 1);
      sent + PageLength(script[n - 1], since, pageSize, sent)
  }

  /** The frames of `n` rounds, none before the last of them ending the stream. */
  ghost function FramesAfter(script: seq<Round>, since: int, pageSize: nat, n: nat): seq<Frame>
    requires n <= |script|
  {
    if n == 0 then []
    else
      FramesAfter(script, since, pageSize, n - 1) +
      TurnFrames(script[n - 1], since, pageSize, SentAfter(script, since, pageSize, n - 1))
  }

  /** None of the first `n` rounds ends the stream. */
  ghost predicate GoesOn(script: seq<Round>, since: int, pageSize: nat, n: nat)
    requires n <= |script|
  {
    n > 0 ==>
      && GoesOn(script, since, pageSize, n - 1)
      && EndsWith(script[n - 1], since, pageSize, SentAfter(script, since, pageSize, n - 1), StillStreaming)
  }

  /** After `n` rounds the stream is open, or the last of them ended it this way. */
  ghost predicate EndedBy(script: seq<Round>, since: int, pageSize: nat, n: nat, end: End)
    requires n <= |script|
  {
    if end.StillStreaming? then GoesOn(script, since, pageSize, n)
    else
      && n > 0 && GoesOn(script, since, pageSize, n - 1)
      && EndsWith(script[n - 1], since, pageSize, SentAfter(script, since, pageSize, n - 1), end)
  }

  /** How many entries have been sent when `n` rounds have been entered and the last of them ended so. */
  ghost function TotalSent(script: seq<Round>, since: int, pageSize: nat, n: nat, end: End): nat
    requires n <= |script|
  {
    if n > 0 && end.StoreFailed? then SentAfter(script, since, pageSize, n - 1)
    else if n > 0 && end.ClientGone? then
      var sent := SentAfter(script, since, pageSize, n - 1);
      sent + Taken(script[n - 1], since, pageSize, sent)
    else SentAfter(script, since, pageSize, n)
  }

  /** What has happened when `n` rounds have been entered. */
  ghost predicate Streamed(script: seq<Round>, since: int, pageSize: nat, n: nat, frames: seq<Frame>, end: End) {
    && n <= |script| && (end.StillStreaming? ==> n == |script|)
    && EndedBy(script, since, pageSize, n, end)
    // The frames of these rounds and no others.
    && frames == FramesAfter(script, since, pageSize, if n > 0 && end.StoreFailed? then n - 1 else n)
    // Exactly the entries after the starting cursor, in order, no gap and no repeat, and this many of them.
    && Events(frames) <= After(JournalRead(script, if n > 0 && end.StoreFailed? then n - 1 else n), since)
    && |Events(frames)| == TotalSent(script, since, pageSize, n, end)
    // The terminal notice comes last, after the whole journal of a terminal run.
    && NoticeOnlyLast(frames)
    && (!end.Finished? ==> NoNotice(frames))
    && (end.Finished? ==> Events(frames) == After(JournalRead(script, n), since))
  }

  /** The streaming loop over a script of rounds. */
  method Stream(script: seq<Round>, since: int, pageSize: nat)
    returns (frames: seq<Frame>, end: End)
    requires Growing(script, |script|) && pageSize >= 1
    ensures exists n: nat :: Streamed(script, since, pageSize, n, frames, end)
  {
    frames, end := [], StillStreaming;
    var cursor, k := since, 0;
    while k < |script| && end.StillStreaming?
      invariant 0 <= k <= |script|
      invariant end.StillStreaming? ==> OnTheWay(script, since, pageSize, k, frames, cursor)
      invariant !end.StillStreaming? ==> Streamed(script, since, pageSize, k, frames, end)
    {
      frames, cursor, end := OneRound(script, since, pageSize, k, frames, cursor);
      k := k + 1;
    }
    if end.StillStreaming? {
      WayIsStreamed(script, since, pageSize, frames, cursor);
    }
  }

  method OneRound(script: seq<Round>, since: int, pageSize: nat, k: nat, frames0: seq<Frame>, cursor0: int)
    returns (frames: seq<Frame>, cursor: int, end: End)
    requires Growing(script, |script|) && pageSize >= 1 && k < |script|
    requires OnTheWay(script, since, pageSize, k, frames0, cursor0)
    ensures end.StillStreaming? ==> OnTheWay(script, since, pageSize, k + 1, frames, cursor)
    ensures !end.StillStreaming? ==> Streamed(script, since, pageSize, k + 1, frames, end)
  {
    var round := script[k];
    if !round.readable {
      FailureIsStreamed(script, since, pageSize, k, frames0, cursor0);
      return frames0, cursor0, StoreFailed;
    }
    GrowingAt(script, |script|, k + 1);
    SentStays(JournalRead(script, k), round.journal, since, frames0, cursor0);
    frames, cursor, end := Turn(round, since, pageSize, frames0, cursor0);
    if end.StillStreaming? {
      RoundGoesOn(script, since, pageSize, k, |Events(frames0)|, frames, cursor, end);
    } else {
      RoundEnds(script, since, pageSize, k, |Events(frames0)|, frames, cursor, end);
    }
  }

  lemma {:induction false} WayIsStreamed(script: seq<Round>, since: int, pageSize: nat, frames: seq<Frame>, cursor: int)
    requires OnTheWay(script, since, pageSize, |script|, frames, cursor)
    ensures Streamed(script, since, pageSize, |script|, frames, StillStreaming)
  {
  }

  lemma {:induction false} FailureIsStreamed(script: seq<Round>, since: int, pageSize: nat, k: nat, frames: seq<Frame>, cursor: int)
    requires k < |script| && OnTheWay(script, since, pageSize, k, frames, cursor) && !script[k].readable
    ensures Streamed(script, since, pageSize, k + 1, frames, StoreFailed)
  {
  }

  /** After `k` rounds that went on. */
  ghost predicate OnTheWay(script: seq<Round>, since: int, pageSize: nat, k: nat, frames: seq<Frame>, cursor: int)
    requires k <= |script|
  {
    && GoesOn(script, since, pageSize, k)
    && Sent(JournalRead(script, k), since, frames, cursor)
    && |Events(frames)| == SentAfter(script, since, pageSize, k)
    && frames == FramesAfter(script, since, pageSize, k)
    && NoNotice(frames)
  }

  lemma {:induction false} RoundGoesOn(script: seq<Round>, since: int, pageSize: nat, k: nat, before: nat,
                                       frames: seq<Frame>, cursor: int, end: End)
    requires k < |script| && GoesOn(script, since, pageSize, k) && script[k].readable
    requires before == SentAfter(script, since, pageSize, k) && before <= |After(script[k].journal, since)|
    requires Sent(script[k].journal, since, frames, cursor)
    requires EndsWith(script[k], since, pageSize, before, end)
    requires |Events(frames)| == before + Taken(script[k], since, pageSize, before)
    requires frames == FramesAfter(script, since, pageSize, k + 1)
    requires end.StillStreaming? && NoNotice(frames)
    ensures OnTheWay(script, since, pageSize, k + 1, frames, cursor)
  {
    assert Taken(script[k], since, pageSize, before) == PageLength(script[k], since, pageSize, before);
  }

  lemma {:induction false} RoundEnds(script: seq<Round>, since: int, pageSize: nat, k: nat, before: nat,
                                     frames: seq<Frame>, cursor: int, end: End)
    requires k < |script| && GoesOn(script, since, pageSize, k) && script[k].readable
    requires before == SentAfter(script, since, pageSize, k) && before <= |After(script[k].journal, since)|
    requires Sent(script[k].journal, since, frames, cursor)
    requires EndsWith(script[k], since, pageSize, before, end)
    requires |Events(frames)| == before + Taken(script[k], since, pageSize, before)
    requires frames == FramesAfter(script, since, pageSize, k + 1)
    requires !end.StillStreaming? && NoticeOnlyLast(frames) && (!end.Finished? ==> NoNotice(frames))
    ensures Streamed(script, since, pageSize, k + 1, frames, end)
  {
    EndTotal(script, since, pageSize, k, before, end);
    TakenAll(script[k], since, pageSize, before, end);
  }

  lemma {:induction false} EndTotal(script: seq<Round>, since: int, pageSize: nat, k: nat, before: nat, end: End)
    requires k < |script| && GoesOn(script, since, pageSize, k) && script[k].readable && !end.StillStreaming?
    requires before == SentAfter(script, since, pageSize, k) && before <= |After(script[k].journal, since)|
    requires EndsWith(script[k], since, pageSize, before, end)
    ensures EndedBy(script, since, pageSize, k + 1, end)
    ensures TotalSent(script, since, pageSize, k + 1, end) == before + Taken(script[k], since, pageSize, before)
  {
    TakenAll(script[k], since, pageSize, before, end);
  }

  lemma TakenAll(round: Round, since: int, pageSize: nat, sent: nat, end: End)
    requires round.readable && EndsWith(round, since, pageSize, sent, end) && sent <= |After(round.journal, since)|
    ensures !end.ClientGone? ==> Taken(round, since, pageSize, sent) == PageLength(round, since, pageSize, sent)
    ensures end.Finished? ==> sent + PageLength(round, since, pageSize, sent) == |After(round.journal, since)|
  {
  }

  /** Every round that goes on catches up with the journal as it finds it, or sends a full page. */
  lemma {:induction false} EveryRoundAdvances(script: seq<Round>, since: int, pageSize: nat, n: nat)
    requires n < |script| && Growing(script, n + 1)
    ensures var sent, after := SentAfter(script, since, pageSize, n), SentAfter(script, since, pageSize, n + 1);
            && after <= |After(script[n].journal, since)|
            && (after == |After(script[n].journal, since)| || after == sent + pageSize)
    decreases n
  {
    if n > 0 {
      EveryRoundAdvances(script, since, pageSize, n - 1);
      AfterGrows(script[n - 1].journal, script[n].journal, since);
    }
  }

  /** The journal as the last of `n` rounds read it. */
  ghost function JournalRead(script: seq<Round>, n: nat): seq<Event>
    requires n <= |script|
  {
    if n == 0 then [] else script[n - 1].journal
  }

  /** The journal the terminal notice follows is the journal for good. */
  lemma {:induction false} TerminalJournalIsWhole(script: seq<Round>, used: nat, frames: seq<Frame>, since: int, j: nat)
    requires 0 < used <= j <= |script| && Growing(script, j) && script[used - 1].terminal
    requires Events(frames) == After(JournalRead(script, used), since)
    ensures script[j - 1].terminal && Events(frames) == After(JournalRead(script, j), since)
    decreases j
  {
    if j > used {
      TerminalJournalIsWhole(script, used, frames, since, j - 1);
    }
  }
}
