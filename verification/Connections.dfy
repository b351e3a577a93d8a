// The session as the object that is updated message by message.
module Connections {
  import opened Wrappers
  import opened Values
  import opened Session

  class Connection {
    const host: Host
    var transaction: Transaction
    var statements: map<string, Prepared>
    var portals: map<string, Portal>
    var skipUntilSync: bool
    var out: seq<Frame>

    constructor (host: Host)
      ensures this.host == host && Now() == State(Idle, map[], map[], false) && out == []
    {
      this.host := host;
      transaction, statements, portals, skipUntilSync, out := Idle, map[], map[], false, [];
    }

    function Now(): State
      reads this
    {
      State(transaction, statements, portals, skipUntilSync)
    }

    // The state and frames are those of `o`, sent after what had been sent before.
    ghost predicate Came(o: Handled, sent: seq<Frame>, fault: Option<Fault>)
      reads this
    {
      Now() == o.state && out == sent + o.frames && fault == o.fault
    }

    method Send(frame: Frame)
      modifies this`out
      ensures out == old(out) + [frame]
    {
      out := out + [frame];
    }

    method SendRows(rows: seq<Row>, formats: seq<Format>)
      modifies this`out
      ensures out == old(out) + RowFrames(rows, formats)
    {
      ghost var sent := out;
      for i := 0 to |rows|
        invariant out == sent + RowFrames(rows, formats)[..i]
      {
        Send(DataRow(rows[i], formats));
      }
    }

    method SendResult(r: QueryResult)
      modifies this`out
      ensures out == old(out) + ResultFrames(r)
    {
      if r.emptyQuery {
        Send(EmptyQueryResponse);
      } else {
        var formats := AllText(|r.fields|);
        if r.fields != [] {
          Send(RowDescription(r.fields, formats));
        }
        SendRows(r.rows, formats);
        Send(CommandComplete(r.tag));
      }
    }

    method SimpleQuery(sql: string, reply: Reply) returns (fault: Option<Fault>)
      modifies this
      ensures Came(OnQuery(host, old(Now()), sql, reply), old(out), fault)
    {
      var result := EmptyResult();
      if !host.blank(sql) {
        match reply
        case Ran(r) => result := r;
        case Refused(text) =>
          transaction := FailTransaction(transaction);
          Send(ErrorResponse(false, HandlerError(text)));
          Send(ReadyForQuery(transaction));
          return None;
        case _ => return Some(HandlerPanic);
      }
      transaction := Applied(transaction, result);
      SendResult(result);
      Send(ReadyForQuery(transaction));
      return None;
    }

    method ParseStatement(name: string, sql: string, declared: seq<Option<DataType>>, reply: Reply)
      returns (fault: Option<Fault>)
      modifies this
      ensures Came(OnParse(old(Now()), name, sql, declared, reply), old(out), fault)
    {
      match reply
      case Described(d) =>
        var types := MergeTypes(declared, d);
        if name != "" && name in statements {
          return Some(StatementExists(name));
        }
        var fields := if d.fields.Some? then d.fields.value else [];
        statements := statements[name := Prepared(sql, types, fields, d.fields.Some?)];
        Send(ParseComplete);
        return None;
      case Refused(text) => return Some(HandlerError(text));
      case _ => return Some(HandlerPanic);
    }

    method DecodeParams(types: seq<DataType>, formats: seq<Format>, raw: seq<Raw>) returns (r: Option<Row>)
      requires |formats| == |raw|
      ensures r == DecodeAll(host, types, formats, raw)
    {
      var values: Row := [];
      for i := 0 to |raw|
        invariant DecodeAll(host, types, formats[..i], raw[..i]) == Some(values)
      {
        assert formats[..i + 1][..i] == formats[..i] && raw[..i + 1][..i] == raw[..i];
        var ty := if i < |types| then types[i] else TextType;
        var v := host.decode(ty, formats[i], raw[i]);
        if v.None? {
          DecodeStops(types, formats, raw, i + 1);
          return None;
        }
        values := values + [v.value];
      }
      assert formats[..|raw|] == formats && raw[..|raw|] == raw;
      return Some(values);
    }

    // One parameter that does not decode fails the whole Bind.
    lemma {:induction false} DecodeStops(types: seq<DataType>, formats: seq<Format>, raw: seq<Raw>, i: nat)
      requires |formats| == |raw| && i <= |raw| && DecodeAll(host, types, formats[..i], raw[..i]) == None
      ensures DecodeAll(host, types, formats, raw) == None
      decreases |raw| - i
    {
      if i < |raw| {
        assert formats[..i + 1][..i] == formats[..i] && raw[..i + 1][..i] == raw[..i];
        DecodeStops(types, formats, raw, i + 1);
      } else {
        assert formats[..i] == formats && raw[..i] == raw;
      }
    }

    method BindPortal(m: Message) returns (fault: Option<Fault>)
      requires m.Bind?
      modifies this
      ensures Came(OnBind(host, old(Now()), m), old(out), fault)
    {
      if m.statement !in statements {
        return Some(NoStatement(m.statement));
      }
      var prepared := statements[m.statement];
      var formats := ResolveFormats(m.paramFormats, |m.params|);
      if formats.None? {
        return Some(ProtocolError);
      }
      var values := DecodeParams(prepared.paramTypes, formats.value, m.params);
      if values.None? {
        return Some(ProtocolError);
      }
      var result := if m.resultFormats == [] then AllText(|prepared.fields|) else m.resultFormats;
      portals := portals[m.portal := Portal(m.statement, values.value, result, None)];
      Send(BindComplete);
      return None;
    }

    method StartPortal(name: string, reply: Reply) returns (fault: Option<Fault>)
      requires name in portals
      modifies this
      ensures Came(Start(old(Now()), name, reply), old(out), fault)
    {
      var statement := portals[name].statement;
      if statement !in statements {
        return Some(NoStatement(statement));
      }
      match reply
      case Ran(r) =>
        transaction := Applied(transaction, r);
        if r.fields != [] && !statements[statement].described {
          statements := statements[statement := statements[statement].(fields := r.fields, described := true)];
        }
        portals := portals[name := portals[name].(pending := Some(Pending(|r.fields|, r.rows, r.tag, 0,
          r.emptyQuery)))];
        return None;
      case Refused(text) =>
        transaction := FailTransaction(transaction);
        return Some(HandlerError(text));
      case _ => return Some(HandlerPanic);
    }

    // Sends rows off the front of what is pending until the limit or the end.
    method Drain(pending: Pending, maxRows: int, formats: seq<Format>) returns (rest: Pending)
      modifies this`out
      ensures var n := Chunk(pending, maxRows);
              rest == pending.(rows := pending.rows[n..], sent := pending.sent + n)
                && out == old(out) + RowFrames(pending.rows[..n], formats)
    {
      var limit := Limit(maxRows);
      ghost var sent := out;
      var count := 0;
      while count < limit && count < |pending.rows|
        invariant 0 <= count <= Chunk(pending, maxRows)
        invariant out == sent + RowFrames(pending.rows, formats)[..count]
      {
        Send(DataRow(pending.rows[count], formats));
        count := count + 1;
      }
      assert RowFrames(pending.rows, formats)[..count] == RowFrames(pending.rows[..count], formats);
      return pending.(rows := pending.rows[count..], sent := pending.sent + count);
    }

    method DeliverRows(name: string, maxRows: int) returns (fault: Option<Fault>)
      requires name in portals && portals[name].pending.Some?
      modifies this
      ensures Came(Deliver(old(Now()), name, maxRows), old(out), fault)
    {
      var pending := portals[name].pending.value;
      if pending.emptyQuery {
        Send(EmptyQueryResponse);
        portals := portals[name := portals[name].(pending := None)];
        return None;
      }
      var formats := ResolveFormats(portals[name].resultFormats, pending.fieldCount);
      if formats.None? {
        return Some(ProtocolError);
      }
      var rest := Drain(pending, maxRows, formats.value);
      if rest.rows == [] {
        Send(CommandComplete(FinishedTag(rest.tag, rest.sent)));
        portals := portals[name := portals[name].(pending := None)];
      } else {
        portals := portals[name := portals[name].(pending := Some(rest))];
        Send(PortalSuspended);
      }
      return None;
    }

    method ExecutePortal(name: string, maxRows: int, reply: Reply) returns (fault: Option<Fault>)
      modifies this
      ensures Came(OnExecute(old(Now()), name, maxRows, reply), old(out), fault)
    {
      if name !in portals {
        return Some(NoPortal(name));
      }
      if portals[name].pending.None? {
        fault := StartPortal(name, reply);
        if fault.Some? {
          return;
        }
      }
      fault := DeliverRows(name, maxRows);
    }

    method DispatchMessage(m: Message, reply: Reply) returns (fault: Option<Fault>)
      modifies this
      ensures Came(Dispatch(host, old(Now()), m, reply), old(out), fault)
    {
      if skipUntilSync && m != Sync {
        return None;
      }
      match m
      case Query(sql) => fault := SimpleQuery(sql, reply);
      case Parse(name, sql, declared) => fault := ParseStatement(name, sql, declared, reply);
      case Bind(_, _, _, _, _) => fault := BindPortal(m);
      case DescribeStatement(name) =>
        var o := OnDescribeStatement(Now(), name);
        out := out + o.frames;
        return o.fault;
      case DescribePortal(name) =>
        var o := OnDescribePortal(Now(), name);
        out := out + o.frames;
        return o.fault;
      case Execute(portal, maxRows) => fault := ExecutePortal(portal, maxRows, reply);
      case CloseStatement(name) =>
        statements := statements - {name};
        portals := map p | p in portals && portals[p].statement != name :: portals[p];
        Send(CloseComplete);
        return None;
      case ClosePortal(name) =>
        portals := portals - {name};
        Send(CloseComplete);
        return None;
      case Sync =>
        skipUntilSync := false;
        Send(ReadyForQuery(transaction));
        return None;
      case Flush => return None;
      case Password => return Some(ProtocolError);
      case Unsupported => return Some(ProtocolError);
    }

    // One turn of the loop; a fault returned ends the session.
    method Handle(m: Message, reply: Reply) returns (fault: Option<Fault>)
      modifies this
      ensures Came(Turn(host, old(Now()), m, reply), old(out), fault)
    {
      fault := DispatchMessage(m, reply);
      if fault.Some? {
        if Recoverable(fault.value) {
          skipUntilSync := true;
          transaction := FailTransaction(transaction);
          Send(ErrorResponse(false, fault.value));
          fault := None;
        } else {
          Send(ErrorResponse(true, fault.value));
        }
      }
    }
  }
}
