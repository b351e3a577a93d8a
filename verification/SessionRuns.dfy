// What holds over every run of messages, whatever the client sends and the handler answers.
module SessionRuns {
  import opened Wrappers
  import opened Values
  import opened Session

  datatype Event = Event(m: Message, reply: Reply)

  const FRESH: State := State(Idle, map[], map[], false)

  // All frames of a run, and the state it ends in; a fatal fault ends it early.
  function Run(host: Host, s: State, run: seq<Event>): Handled {
    if run == [] then Handled(s, [], None)
    else
      var o, e := Run(host, s, run[..|run| - 1]), run[|run| - 1];
      if o.fault.Some? then o
      else
        var t := Turn(host, o.state, e.m, e.reply);
        Handled(t.state, o.frames + t.frames, t.fault)
  }

  // ------------------------------------------------- one answer, one ready

  function Readies(frames: seq<Frame>): nat {
    if frames == [] then 0
    else Readies(frames[..|frames| - 1]) + (if frames[|frames| - 1].ReadyForQuery? then 1 else 0)
  }

  lemma {:induction false} ReadiesAppend(a: seq<Frame>, b: seq<Frame>)
    ensures Readies(a + b) == Readies(a) + Readies(b)
  {
    if b == [] {
      assert a + b == a;
    } else {
      ReadiesAppend(a, b[..|b| - 1]);
      assert (a + b)[..|a + b| - 1] == a + b[..|b| - 1];
    }
  }

  lemma {:induction false} NoReadies(frames: seq<Frame>)
    requires forall i :: 0 <= i < |frames| ==> !frames[i].ReadyForQuery?
    ensures Readies(frames) == 0
  {
    if frames != [] {
      NoReadies(frames[..|frames| - 1]);
    }
  }

  // The messages that are answered with ReadyForQuery: every Sync, every Query not skipped.
  ghost predicate AsksForReady(s: State, m: Message) { m == Sync || (m.Query? && !s.skipUntilSync) }

  // ReadyForQuery is sent for exactly those, once, as the last frame of the answer; an error
  // response is the last frame before it.
  ghost predicate WellAnswered(s: State, m: Message, o: Handled) {
    var n := |o.frames|;
    && (forall i :: 0 <= i < n && o.frames[i].ReadyForQuery? ==> i == n - 1)
    && (AsksForReady(s, m) && o.fault.None? <==> n > 0 && o.frames[n - 1].ReadyForQuery?)
    && (forall i :: 0 <= i < n && o.frames[i].ErrorResponse? ==>
      i == n - 1 || (i == n - 2 && o.frames[n - 1].ReadyForQuery?))
  }

  lemma {:induction false} ResultWellAnswered(r: QueryResult, t: Transaction)
    ensures var frames := ResultFrames(r) + [ReadyForQuery(t)];
            forall i :: 0 <= i < |frames| - 1 ==> !frames[i].ReadyForQuery? && !frames[i].ErrorResponse?
  {
  }

  lemma {:induction false} DeliveredFrames(s: State, name: string, maxRows: int)
    requires name in s.portals && s.portals[name].pending.Some?
    ensures var o := Deliver(s, name, maxRows);
            forall i :: 0 <= i < |o.frames| ==> !o.frames[i].ReadyForQuery? && !o.frames[i].ErrorResponse?
  {
  }

  lemma {:induction false} ExecuteFrames(s: State, name: string, maxRows: int, reply: Reply)
    ensures var o := OnExecute(s, name, maxRows, reply);
            forall i :: 0 <= i < |o.frames| ==> !o.frames[i].ReadyForQuery? && !o.frames[i].ErrorResponse?
  {
    if name in s.portals {
      if s.portals[name].pending.Some? {
        DeliveredFrames(s, name, maxRows);
      } else if Start(s, name, reply).fault.None? {
        DeliveredFrames(Start(s, name, reply).state, name, maxRows);
      }
    }
  }

  ghost predicate Plain(frames: seq<Frame>) {
    forall i :: 0 <= i < |frames| ==> !frames[i].ReadyForQuery? && !frames[i].ErrorResponse?
  }

  lemma {:induction false} DispatchFrames(host: Host, s: State, m: Message, reply: Reply)
    requires !AsksForReady(s, m)
    ensures Plain(Dispatch(host, s, m, reply).frames)
  {
    if m.Execute? && !s.skipUntilSync {
      ExecuteFrames(s, m.portal, m.maxRows, reply);
    }
  }

  lemma {:induction false} QueryAnswered(host: Host, s: State, sql: string, reply: Reply)
    ensures var o := OnQuery(host, s, sql, reply);
            var n := |o.frames|;
            if o.fault.Some? then o.frames == []
            else
              && n > 0 && o.frames[n - 1].ReadyForQuery?
              && (|| o.frames[..n - 1] == [ErrorResponse(false,
                HandlerError(if reply.Refused? then reply.text else ""))]
                  || Plain(o.frames[..n - 1]))
  {
    if host.blank(sql) {
      ResultWellAnswered(EmptyResult(), s.transaction);
    } else if reply.Ran? {
      ResultWellAnswered(reply.result, Applied(s.transaction, reply.result));
    }
  }

  lemma {:induction false} TurnAnswers(host: Host, s: State, m: Message, reply: Reply)
    ensures WellAnswered(s, m, Turn(host, s, m, reply))
  {
    if !AsksForReady(s, m) {
      DispatchFrames(host, s, m, reply);
    } else if m.Query? {
      QueryAnswered(host, s, m.sql, reply);
    }
  }

  // ------------------------------------------------------ errors come last

  ghost predicate EndsInError(frames: seq<Frame>) { frames != [] && frames[|frames| - 1].ErrorResponse? }

  // An error response is followed by ReadyForQuery or by nothing.
  ghost predicate ErrorsLast(frames: seq<Frame>) {
    forall i :: 0 <= i < |frames| - 1 && frames[i].ErrorResponse? ==> frames[i + 1].ReadyForQuery?
  }

  // While the session skips it sends nothing, and it starts skipping exactly when it sends an
  // error it recovers from.
  lemma {:induction false} TurnSkips(host: Host, s: State, m: Message, reply: Reply)
    ensures var o := Turn(host, s, m, reply);
            && (s.skipUntilSync && m != Sync ==> o.frames == [] && o.state == s && o.fault.None?)
            && (o.fault.None? && o.frames != [] ==> (o.state.skipUntilSync <==> EndsInError(o.frames)))
            && (o.fault.None? && o.frames == [] ==> o.state.skipUntilSync == s.skipUntilSync)
            && (s.skipUntilSync && m == Sync ==> o.frames == [ReadyForQuery(s.transaction)])
  {
    if !s.skipUntilSync || m == Sync {
      SkipKept(host, s, m, reply);
      if !AsksForReady(s, m) {
        DispatchFrames(host, s, m, reply);
      } else if m.Query? {
        QueryAnswered(host, s, m.sql, reply);
      }
    }
  }

  // No message but Sync touches the flag.
  lemma {:induction false} SkipKept(host: Host, s: State, m: Message, reply: Reply)
    ensures Dispatch(host, s, m, reply).state.skipUntilSync == (s.skipUntilSync && m != Sync)
  {
    if m.Execute? && !s.skipUntilSync && m.portal in s.portals && s.portals[m.portal].pending.None? {
      var started := Start(s, m.portal, reply);
      assert started.state.skipUntilSync == s.skipUntilSync;
    }
  }

  lemma {:induction false} ErrorsLastAppend(a: seq<Frame>, b: seq<Frame>)
    requires ErrorsLast(a) && ErrorsLast(b)
    requires EndsInError(a) && b != [] ==> b[0].ReadyForQuery?
    ensures ErrorsLast(a + b)
  {
    var all := a + b;
    forall i | 0 <= i < |all| - 1 && all[i].ErrorResponse? ensures all[i + 1].ReadyForQuery? {
      if i < |a| - 1 {
        assert all[i] == a[i] && all[i + 1] == a[i + 1];
      } else if i == |a| - 1 {
        assert all[i] == a[i] && all[i + 1] == b[0];
      } else {
        assert all[i] == b[i - |a|] && all[i + 1] == b[i + 1 - |a|];
      }
    }
  }

  lemma {:induction false} AnswerErrorsLast(s: State, m: Message, o: Handled)
    requires WellAnswered(s, m, o)
    ensures ErrorsLast(o.frames)
  {
    var n := |o.frames|;
    forall i | 0 <= i < n - 1 && o.frames[i].ErrorResponse? ensures o.frames[i + 1].ReadyForQuery? {
      assert i == n - 2;
    }
  }

  // In every run, each error response is the last frame before the next ReadyForQuery.
  lemma {:induction false} ErrorThenReady(host: Host, run: seq<Event>)
    ensures var o := Run(host, FRESH, run);
            ErrorsLast(o.frames) && (o.fault.None? ==> (o.state.skipUntilSync <==> EndsInError(o.frames)))
  {
    if run != [] {
      var front, e := run[..|run| - 1], run[|run| - 1];
      ErrorThenReady(host, front);
      var o := Run(host, FRESH, front);
      if o.fault.None? {
        var t := Turn(host, o.state, e.m, e.reply);
        TurnAnswers(host, o.state, e.m, e.reply);
        TurnSkips(host, o.state, e.m, e.reply);
        AnswerErrorsLast(o.state, e.m, t);
        ErrorsLastAppend(o.frames, t.frames);
        assert t.frames == [] ==> o.frames + t.frames == o.frames;
      }
    }
  }

  // A Sync, or a query that is blank or that the handler comes back from.
  predicate Answerable(host: Host, m: Message, reply: Reply) {
    m.Query? ==> host.blank(m.sql) || reply.Ran? || reply.Refused?
  }

  lemma {:induction false} AnswerableEnds(host: Host, s: State, m: Message, reply: Reply)
    requires AsksForReady(s, m)
    ensures Turn(host, s, m, reply).fault.None? <==> Answerable(host, m, reply)
  {
  }

  // How many ReadyForQuery a run owes.
  ghost function Owed(host: Host, s: State, run: seq<Event>): nat {
    if run == [] then 0
    else
      var front, e := run[..|run| - 1], run[|run| - 1];
      var o := Run(host, s, front);
      Owed(host, s, front)
      + if o.fault.None? && AsksForReady(o.state, e.m) && Answerable(host, e.m, e.reply) then 1 else 0
  }

  lemma {:induction false} AnswerReadies(s: State, m: Message, o: Handled)
    requires WellAnswered(s, m, o)
    ensures Readies(o.frames) == if AsksForReady(s, m) && o.fault.None? then 1 else 0
  {
    var n := |o.frames|;
    if n > 0 {
      NoReadies(o.frames[..n - 1]);
    }
  }

  // Each Sync, and each Query not skipped unless the handler does not come back from it, is
  // answered with exactly one ReadyForQuery, and nothing else is.
  lemma {:induction false} OneReadyEach(host: Host, s: State, run: seq<Event>)
    ensures Readies(Run(host, s, run).frames) == Owed(host, s, run)
  {
    if run != [] {
      var front, e := run[..|run| - 1], run[|run| - 1];
      OneReadyEach(host, s, front);
      var o := Run(host, s, front);
      if o.fault.None? {
        var t := Turn(host, o.state, e.m, e.reply);
        TurnAnswers(host, o.state, e.m, e.reply);
        AnswerReadies(o.state, e.m, t);
        if AsksForReady(o.state, e.m) {
          AnswerableEnds(host, o.state, e.m, e.reply);
        }
        ReadiesAppend(o.frames, t.frames);
      }
    }
  }

  // --------------------------------------------------- portals stay attached

  // Every portal names a statement that exists.
  ghost predicate Attached(s: State) {
    forall p :: p in s.portals ==> s.portals[p].statement in s.statements
  }

  lemma {:induction false} ExecuteAttached(s: State, name: string, maxRows: int, reply: Reply)
    requires Attached(s)
    ensures Attached(OnExecute(s, name, maxRows, reply).state)
  {
    if name in s.portals && s.portals[name].pending.None? {
      var started := Start(s, name, reply).state;
      assert s.statements.Keys <= started.statements.Keys;
      assert Attached(started);
    }
  }

  lemma {:induction false} TurnAttached(host: Host, s: State, m: Message, reply: Reply)
    requires Attached(s)
    ensures Attached(Turn(host, s, m, reply).state)
  {
    if m.Execute? {
      ExecuteAttached(s, m.portal, m.maxRows, reply);
    }
  }

  lemma {:induction false} PortalsAttached(host: Host, run: seq<Event>)
    ensures Attached(Run(host, FRESH, run).state)
  {
    if run != [] {
      var front, e := run[..|run| - 1], run[|run| - 1];
      PortalsAttached(host, front);
      var o := Run(host, FRESH, front);
      if o.fault.None? {
        TurnAttached(host, o.state, e.m, e.reply);
      }
    }
  }

  // So a portal that exists can be described and executed: its statement is never missing.
  lemma {:induction false} PortalNeverDangles(host: Host, run: seq<Event>, name: string, maxRows: int, reply: Reply)
    ensures var s := Run(host, FRESH, run).state;
            name in s.portals ==>
              && OnDescribePortal(s, name).fault != Some(NoStatement(s.portals[name].statement))
              && (OnExecute(s, name, maxRows, reply).fault.Some? ==>
                !OnExecute(s, name, maxRows, reply).fault.value.NoStatement?)
  {
    PortalsAttached(host, run);
    var s := Run(host, FRESH, run).state;
    if name in s.portals && s.portals[name].pending.None? {
      var started := Start(s, name, reply);
      assert started.fault.None? ==> name in started.state.portals;
    }
  }

  // ------------------------------------------------------ rows, once each

  function RowsIn(frames: seq<Frame>): seq<Row> {
    if frames == [] then []
    else
      var last := frames[|frames| - 1];
      RowsIn(frames[..|frames| - 1]) + (if last.DataRow? then [last.row] else [])
  }

  lemma {:induction false} RowsInFrames(rows: seq<Row>, formats: seq<Format>)
    ensures RowsIn(RowFrames(rows, formats)) == rows
  {
    if rows != [] {
      var n := |rows| - 1;
      RowsInFrames(rows[..n], formats);
      assert RowFrames(rows, formats)[..n] == RowFrames(rows[..n], formats);
      assert rows == rows[..n] + [rows[n]];
    }
  }

  lemma {:induction false} RowsInChunk(rows: seq<Row>, formats: seq<Format>, end: Frame)
    requires !end.DataRow?
    ensures RowsIn(RowFrames(rows, formats) + [end]) == rows
  {
    var frames := RowFrames(rows, formats) + [end];
    assert frames[..|frames| - 1] == RowFrames(rows, formats);
    RowsInFrames(rows, formats);
  }

  ghost predicate Open(s: State, name: string) {
    name in s.portals && s.portals[name].pending.Some? && !s.portals[name].pending.value.emptyQuery
  }

  ghost predicate Executes(s: State, m: Message, name: string) {
    m.Execute? && m.portal == name && !s.skipUntilSync
  }

  // The rows a portal delivers during a run.
  ghost function Delivered(host: Host, s: State, run: seq<Event>, name: string): seq<Row> {
    if run == [] then []
    else
      var front, e := run[..|run| - 1], run[|run| - 1];
      var o := Run(host, s, front);
      Delivered(host, s, front, name)
      + if o.fault.None? && Executes(o.state, e.m, name) then RowsIn(Turn(host, o.state, e.m, e.reply).frames) else []
  }

  // Whatever else happens meanwhile, the portal keeps rows to deliver.
  ghost predicate KeepsOpen(host: Host, s: State, run: seq<Event>, name: string) {
    && Run(host, s, run).fault.None? && Open(Run(host, s, run).state, name)
    && (run != [] ==> KeepsOpen(host, s, run[..|run| - 1], name))
  }

  // What remains of `p` once `rows` are gone.
  ghost predicate Follows(p: Pending, rows: seq<Row>, q: Pending) {
    p.rows == rows + q.rows && q.sent == p.sent + |rows| && q.tag == p.tag && q.emptyQuery == p.emptyQuery
  }

  lemma {:induction false} DeliverOpen(s: State, name: string, maxRows: int)
    requires Open(s, name)
    ensures var o := Deliver(s, name, maxRows);
            var p := s.portals[name].pending.value;
            o.fault.None? ==>
              && name in o.state.portals
              && (Open(o.state, name) ==> Follows(p, RowsIn(o.frames), o.state.portals[name].pending.value))
              && (!Open(o.state, name) ==>
                    && RowsIn(o.frames) == p.rows && o.frames != []
                    && o.frames[|o.frames| - 1] == CommandComplete(FinishedTag(p.tag, p.sent + |p.rows|)))
  {
    var portal := s.portals[name];
    var p := portal.pending.value;
    match ResolveFormats(portal.resultFormats, p.fieldCount)
    case None =>
    case Some(formats) =>
      var n := Chunk(p, maxRows);
      RowsInChunk(p.rows[..n], formats, PortalSuspended);
      RowsInChunk(p.rows[..n], formats, CommandComplete(FinishedTag(p.tag, p.sent + n)));
      assert p.rows == p.rows[..n] + p.rows[n..];
  }

  // A message that is not its Execute leaves an open portal as it is, or does away with it.
  lemma {:induction false} OthersLeaveAlone(host: Host, s: State, m: Message, reply: Reply, name: string)
    requires Open(s, name) && !Executes(s, m, name)
    ensures var o := Turn(host, s, m, reply); Open(o.state, name) ==> o.state.portals[name] == s.portals[name]
  {
    if m.Execute? && !s.skipUntilSync {
      OtherExecute(s, m.portal, m.maxRows, reply, name);
    }
  }

  lemma {:induction false} OtherExecute(s: State, other: string, maxRows: int, reply: Reply, name: string)
    requires Open(s, name) && other != name
    ensures var o := OnExecute(s, other, maxRows, reply);
            name in o.state.portals && o.state.portals[name] == s.portals[name]
  {
    if other in s.portals && s.portals[other].pending.None? {
      var started := Start(s, other, reply);
      assert name in started.state.portals && started.state.portals[name] == s.portals[name];
    }
  }

  lemma {:induction false} TurnOpen(host: Host, s: State, e: Event, name: string)
    requires Open(s, name) && Executes(s, e.m, name)
    requires var o := Turn(host, s, e.m, e.reply); o.fault.None? && !o.state.skipUntilSync
    ensures Turn(host, s, e.m, e.reply) == Deliver(s, name, e.m.maxRows)
  {
  }

  lemma {:induction false} NoErrorWhenOpen(host: Host, s: State, e: Event, name: string)
    requires Open(s, name) && Executes(s, e.m, name) && Turn(host, s, e.m, e.reply).fault.None?
    ensures !Turn(host, s, e.m, e.reply).state.skipUntilSync
  {
  }

  // As long as the portal stays open, what was delivered and what is left make up what there was.
  lemma {:induction false} DeliveredSoFar(host: Host, s: State, run: seq<Event>, name: string)
    requires Open(s, name) && KeepsOpen(host, s, run, name)
    ensures Follows(s.portals[name].pending.value, Delivered(host, s, run, name),
            Run(host, s, run).state.portals[name].pending.value)
  {
    if run != [] {
      var front, e := run[..|run| - 1], run[|run| - 1];
      DeliveredSoFar(host, s, front, name);
      var o := Run(host, s, front);
      if Executes(o.state, e.m, name) {
        NoErrorWhenOpen(host, o.state, e, name);
        TurnOpen(host, o.state, e, name);
        DeliverOpen(o.state, name, e.m.maxRows);
      } else {
        OthersLeaveAlone(host, o.state, e.m, e.reply, name);
      }
    }
  }

  // The first Execute runs the statement and delivers from its beginning.
  lemma {:induction false} FirstDelivery(host: Host, s: State, name: string, first: Event)
    requires !s.skipUntilSync && name in s.portals && s.portals[name].pending.None?
    requires first.m.Execute? && first.m.portal == name && first.reply.Ran? && !first.reply.result.emptyQuery
    requires Turn(host, s, first.m, first.reply).fault.None? && Open(Turn(host, s, first.m, first.reply).state, name)
    ensures var t, r := Turn(host, s, first.m, first.reply), first.reply.result;
            Follows(Pending(|r.fields|, r.rows, r.tag, 0, false), RowsIn(t.frames), t.state.portals[name].pending.value)
  {
    var started := Start(s, name, first.reply);
    if started.fault.None? {
      DeliverOpen(started.state, name, first.m.maxRows);
    }
  }

  lemma {:induction false} FollowsOn(p: Pending, a: seq<Row>, q: Pending, b: seq<Row>, r: Pending)
    requires Follows(p, a, q) && Follows(q, b, r)
    ensures Follows(p, a + b, r)
  {
    assert a + (b + r.rows) == (a + b) + r.rows;
  }

  lemma {:induction false} LastDelivery(host: Host, u: State, name: string, last: Event, v: Handled, closing: Frame)
    requires Open(u, name) && Executes(u, last.m, name)
    requires var p := u.portals[name].pending.value; closing == CommandComplete(FinishedTag(p.tag, p.sent + |p.rows|))
    requires v == Turn(host, u, last.m, last.reply) && v.fault.None? && !Open(v.state, name)
    ensures var p := u.portals[name].pending.value;
            && RowsIn(v.frames) == p.rows && v.frames != [] && v.frames[|v.frames| - 1] == closing
  {
    NoErrorWhenOpen(host, u, last, name);
    TurnOpen(host, u, last, name);
    DeliverOpen(u, name, last.m.maxRows);
  }

  // However a result is fetched in pieces, and whatever comes between, every row is delivered
  // once, in order, and the closing tag counts them all.
  lemma {:induction false} EachRowOnce(host: Host, s: State, name: string, first: Event, between: seq<Event>,
                                       last: Event, t: Handled, u: Handled, v: Handled)
    requires !s.skipUntilSync && name in s.portals && s.portals[name].pending.None?
    requires first.m.Execute? && first.m.portal == name && first.reply.Ran? && !first.reply.result.emptyQuery
    requires t == Turn(host, s, first.m, first.reply) && t.fault.None? && Open(t.state, name)
    requires u == Run(host, t.state, between) && KeepsOpen(host, t.state, between, name)
    requires v == Turn(host, u.state, last.m, last.reply) && Executes(u.state, last.m, name)
    requires v.fault.None? && !Open(v.state, name)
    ensures var r := first.reply.result;
            && RowsIn(t.frames) + Delivered(host, t.state, between, name) + RowsIn(v.frames) == r.rows
            && v.frames != [] && v.frames[|v.frames| - 1] == CommandComplete(FinishedTag(r.tag, |r.rows|))
  {
    var r := first.reply.result;
    var p := Pending(|r.fields|, r.rows, r.tag, 0, false);
    FirstDelivery(host, s, name, first);
    DeliveredSoFar(host, t.state, between, name);
    FollowsOn(p, RowsIn(t.frames), t.state.portals[name].pending.value,
              Delivered(host, t.state, between, name), u.state.portals[name].pending.value);
    AllGone(p, RowsIn(t.frames) + Delivered(host, t.state, between, name), u.state.portals[name].pending.value);
    LastDelivery(host, u.state, name, last, v, CommandComplete(FinishedTag(r.tag, |r.rows|)));
  }

  // A result the first Execute leaves nothing of was delivered whole.
  lemma {:induction false} WholeAtOnce(host: Host, s: State, name: string, first: Event, t: Handled)
    requires !s.skipUntilSync && name in s.portals && s.portals[name].pending.None?
    requires first.m.Execute? && first.m.portal == name && first.reply.Ran? && !first.reply.result.emptyQuery
    requires t == Turn(host, s, first.m, first.reply) && t.fault.None? && !t.state.skipUntilSync && !Open(t.state, name)
    ensures var r := first.reply.result;
            && RowsIn(t.frames) == r.rows
            && t.frames != [] && t.frames[|t.frames| - 1] == CommandComplete(FinishedTag(r.tag, |r.rows|))
  {
    var started := Start(s, name, first.reply);
    if started.fault.None? {
      DeliverOpen(started.state, name, first.m.maxRows);
    }
  }

  lemma {:induction false} AllGone(p: Pending, rows: seq<Row>, q: Pending)
    requires Follows(p, rows, q) && p.sent == 0
    ensures rows + q.rows == p.rows
    ensures CommandComplete(FinishedTag(q.tag, q.sent + |q.rows|)) == CommandComplete(FinishedTag(p.tag, |p.rows|))
  {
  }
}
