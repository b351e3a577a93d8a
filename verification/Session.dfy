// The extended-query session: one client's statements, portals and the frames it is sent.
module Session {
  import opened Bytes
  import opened Wrappers
  import opened Values

  datatype Format = TextFormat | BinaryFormat

  datatype Transaction = Idle | InTransaction | FailedTransaction

  datatype Field = Field(name: string, dataType: DataType)

  datatype Tag =
    | Select(n: nat) | Insert(n: nat) | Update(n: nat) | Delete(n: nat)
    | Begin | Commit | Rollback | Other(text: string)

  datatype QueryResult =
    QueryResult(fields: seq<Field>, rows: seq<Row>, tag: Tag, transaction: Option<Transaction>, emptyQuery: bool)

  datatype Description = Description(parameterTypes: seq<Option<DataType>>, fields: Option<seq<Field>>)

  // What went wrong. Only what the handler or a missing name raises can be recovered from.
  datatype Fault =
    | HandlerError(text: string)
    | NoStatement(name: string)
    | NoPortal(name: string)
    | StatementExists(name: string)
    | ProtocolError
    | HandlerPanic

  predicate Recoverable(f: Fault) { !f.ProtocolError? && !f.HandlerPanic? }

  type Raw = Option<seq<byte>>

  datatype Message =
    | Query(sql: string)
    | Parse(name: string, sql: string, declared: seq<Option<DataType>>)
    | Bind(portal: string, statement: string, paramFormats: seq<Format>, params: seq<Raw>, resultFormats: seq<Format>)
    | DescribeStatement(name: string)
    | DescribePortal(name: string)
    | Execute(portal: string, maxRows: int)
    | CloseStatement(name: string)
    | ClosePortal(name: string)
    | Sync
    | Flush
    | Password
    | Unsupported

  // The handler's answer, should the message ask for one.
  datatype Reply = Ran(result: QueryResult) | Described(description: Description) | Refused(text: string) | Panicked

  datatype Frame =
    | ReadyForQuery(status: Transaction)
    | ErrorResponse(fatal: bool, fault: Fault)
    | ParseComplete
    | BindComplete
    | CloseComplete
    | ParameterDescription(types: seq<DataType>)
    | RowDescription(fields: seq<Field>, formats: seq<Format>)
    | NoData
    | DataRow(row: Row, formats: seq<Format>)
    | CommandComplete(tag: Tag)
    | EmptyQueryResponse
    | PortalSuspended

  datatype Prepared = Prepared(sql: string, paramTypes: seq<DataType>, fields: seq<Field>, described: bool)

  // A result set delivered in part.
  datatype Pending = Pending(fieldCount: nat, rows: seq<Row>, tag: Tag, sent: nat, emptyQuery: bool)

  datatype Portal = Portal(statement: string, params: Row, resultFormats: seq<Format>, pending: Option<Pending>)

  datatype State = State(transaction: Transaction, statements: map<string, Prepared>, portals: map<string, Portal>,
                         skipUntilSync: bool)

  // What handling a message comes to.
  datatype Handled = Handled(state: State, frames: seq<Frame>, fault: Option<Fault>)

  // The codecs the session calls.
  datatype Host = Host(decode: (DataType, Format, Raw) -> Option<Value>, blank: string -> bool)

  // ---------------------------------------------------------------- pieces

  function AllText(n: nat): seq<Format> { seq(n, _ => TextFormat) }

  // No code: all text. One code: for everything. Otherwise one for each.
  function ResolveFormats(codes: seq<Format>, count: nat): Option<seq<Format>> {
    if |codes| == 0 then Some(AllText(count))
    else if |codes| == 1 then Some(seq(count, _ => codes[0]))
    else if |codes| == count then Some(codes)
    else None
  }

  // What the client declared, else what the engine inferred, else text.
  function MergeTypes(declared: seq<Option<DataType>>, d: Description): seq<DataType> {
    var count := if |declared| >= |d.parameterTypes| then |declared| else |d.parameterTypes|;
    seq(count, i requires 0 <= i < count =>
      if i < |declared| && declared[i].Some? then declared[i].value
      else if i < |d.parameterTypes| && d.parameterTypes[i].Some? then d.parameterTypes[i].value
      else TextType)
  }

  function DecodeAll(host: Host, types: seq<DataType>, formats: seq<Format>, raw: seq<Raw>): Option<Row>
    requires |formats| == |raw|
  {
    if raw == [] then Some([])
    else
      var n := |raw| - 1;
      var ty := if n < |types| then types[n] else TextType;
      match DecodeAll(host, types, formats[..n], raw[..n])
      case None => None
      case Some(front) =>
        match host.decode(ty, formats[n], raw[n])
        case None => None
        case Some(v) => Some(front + [v])
  }

  function FailTransaction(t: Transaction): Transaction { if t == InTransaction then FailedTransaction else t }

  function Applied(t: Transaction, r: QueryResult): Transaction {
    if r.transaction.Some? then r.transaction.value else t
  }

  // A row count is only known once the rows are delivered.
  function FinishedTag(tag: Tag, sent: nat): Tag { if tag.Select? then Select(sent) else tag }

  const USIZE_MAX: nat := 0xFFFF_FFFF_FFFF_FFFF

  // `max_rows as usize`: zero means no limit, and a negative count wraps around to a huge one.
  function Limit(maxRows: int): nat {
    if maxRows == 0 then USIZE_MAX else maxRows % (USIZE_MAX + 1)
  }

  function RowFrames(rows: seq<Row>, formats: seq<Format>): (frames: seq<Frame>)
    ensures |frames| == |rows|
    ensures forall i :: 0 <= i < |rows| ==> frames[i] == DataRow(rows[i], formats)
  {
    seq(|rows|, i requires 0 <= i < |rows| => DataRow(rows[i], formats))
  }

  function EmptyResult(): QueryResult { QueryResult([], [], Other(""), None, true) }

  // ------------------------------------------------------------- messages

  function ResultFrames(r: QueryResult): seq<Frame> {
    if r.emptyQuery then [EmptyQueryResponse]
    else
      (if r.fields != [] then [RowDescription(r.fields, AllText(|r.fields|))] else [])
      + RowFrames(r.rows, AllText(|r.fields|)) + [CommandComplete(r.tag)]
  }

  function OnQuery(host: Host, s: State, sql: string, reply: Reply): Handled {
    if host.blank(sql) then
      Handled(s, ResultFrames(EmptyResult()) + [ReadyForQuery(s.transaction)], None)
    else
      match reply
      case Ran(r) =>
        var t := Applied(s.transaction, r);
        Handled(s.(transaction := t), ResultFrames(r) + [ReadyForQuery(t)], None)
      case Refused(text) =>
        var t := FailTransaction(s.transaction);
        Handled(s.(transaction := t), [ErrorResponse(false, HandlerError(text)), ReadyForQuery(t)], None)
      case _ => Handled(s, [], Some(HandlerPanic))
  }

  function OnParse(s: State, name: string, sql: string, declared: seq<Option<DataType>>, reply: Reply): Handled {
    match reply
    case Described(d) =>
      if name != "" && name in s.statements then Handled(s, [], Some(StatementExists(name)))
      else
        var fields := if d.fields.Some? then d.fields.value else [];
        Handled(s.(statements := s.statements[name := Prepared(sql, MergeTypes(declared, d), fields, d.fields.Some?)]),
          [ParseComplete], None)
    case Refused(text) => Handled(s, [], Some(HandlerError(text)))
    case _ => Handled(s, [], Some(HandlerPanic))
  }

  function OnBind(host: Host, s: State, m: Message): Handled
    requires m.Bind?
  {
    if m.statement !in s.statements then Handled(s, [], Some(NoStatement(m.statement)))
    else
      var prepared := s.statements[m.statement];
      match ResolveFormats(m.paramFormats, |m.params|)
      case None => Handled(s, [], Some(ProtocolError))
      case Some(formats) =>
        match DecodeAll(host, prepared.paramTypes, formats, m.params)
        case None => Handled(s, [], Some(ProtocolError))
        case Some(values) =>
          var result := if m.resultFormats == [] then AllText(|prepared.fields|) else m.resultFormats;
          Handled(s.(portals := s.portals[m.portal := Portal(m.statement, values, result, None)]), [BindComplete], None)
  }

  function OnDescribeStatement(s: State, name: string): Handled {
    if name !in s.statements then Handled(s, [], Some(NoStatement(name)))
    else
      var p := s.statements[name];
      var shape := if p.described && p.fields != [] then RowDescription(p.fields, AllText(|p.fields|)) else NoData;
      Handled(s, [ParameterDescription(p.paramTypes), shape], None)
  }

  function OnDescribePortal(s: State, name: string): Handled {
    if name !in s.portals then Handled(s, [], Some(NoPortal(name)))
    else
      var portal := s.portals[name];
      if portal.statement !in s.statements then Handled(s, [], Some(NoStatement(portal.statement)))
      else
        var p := s.statements[portal.statement];
        if p.described && p.fields != [] then
          match ResolveFormats(portal.resultFormats, |p.fields|)
          case None => Handled(s, [], Some(ProtocolError))
          case Some(formats) => Handled(s, [RowDescription(p.fields, formats)], None)
        else Handled(s, [NoData], None)
  }

  // Runs the statement behind a portal and keeps its result to be delivered.
  function Start(s: State, name: string, reply: Reply): Handled
    requires name in s.portals
  {
    var portal := s.portals[name];
    if portal.statement !in s.statements then Handled(s, [], Some(NoStatement(portal.statement)))
    else
      match reply
      case Ran(r) =>
        var prepared := s.statements[portal.statement];
        var statements :=
          if r.fields != [] && !prepared.described
          then s.statements[portal.statement := prepared.(fields := r.fields, described := true)]
          else s.statements;
        var pending := Pending(|r.fields|, r.rows, r.tag, 0, r.emptyQuery);
        Handled(s.(transaction := Applied(s.transaction, r), statements := statements,
                   portals := s.portals[name := portal.(pending := Some(pending))]), [], None)
      case Refused(text) => Handled(s.(transaction := FailTransaction(s.transaction)), [], Some(HandlerError(text)))
      case _ => Handled(s, [], Some(HandlerPanic))
  }

  // How many rows the next delivery takes.
  function Chunk(pending: Pending, maxRows: int): (n: nat)
    ensures n <= |pending.rows|
  {
    if Limit(maxRows) <= |pending.rows| then Limit(maxRows) else |pending.rows|
  }

  function SetPending(s: State, name: string, pending: Option<Pending>): State
    requires name in s.portals
  {
    s.(portals := s.portals[name := s.portals[name].(pending := pending)])
  }

  // Delivers up to `maxRows` of what is pending.
  function Deliver(s: State, name: string, maxRows: int): Handled
    requires name in s.portals && s.portals[name].pending.Some?
  {
    var portal := s.portals[name];
    var p := portal.pending.value;
    if p.emptyQuery then Handled(SetPending(s, name, None), [EmptyQueryResponse], None)
    else
      match ResolveFormats(portal.resultFormats, p.fieldCount)
      case None => Handled(s, [], Some(ProtocolError))
      case Some(formats) =>
        var n := Chunk(p, maxRows);
        var rows, rest, sent := RowFrames(p.rows[..n], formats), p.rows[n..], p.sent + n;
        if rest == [] then Handled(SetPending(s, name, None), rows + [CommandComplete(FinishedTag(p.tag, sent))], None)
        else Handled(SetPending(s, name, Some(p.(rows := rest, sent := sent))), rows + [PortalSuspended], None)
  }

  function OnExecute(s: State, name: string, maxRows: int, reply: Reply): Handled {
    if name !in s.portals then Handled(s, [], Some(NoPortal(name)))
    else if s.portals[name].pending.Some? then Deliver(s, name, maxRows)
    else
      var started := Start(s, name, reply);
      if started.fault.Some? then started else Deliver(started.state, name, maxRows)
  }

  function OnCloseStatement(s: State, name: string): Handled {
    var portals := map p | p in s.portals && s.portals[p].statement != name :: s.portals[p];
    Handled(s.(statements := s.statements - {name}, portals := portals), [CloseComplete], None)
  }

  function Dispatch(host: Host, s: State, m: Message, reply: Reply): Handled {
    if s.skipUntilSync && m != Sync then Handled(s, [], None)
    else
      match m
      case Query(sql) => OnQuery(host, s, sql, reply)
      case Parse(name, sql, declared) => OnParse(s, name, sql, declared, reply)
      case Bind(_, _, _, _, _) => OnBind(host, s, m)
      case DescribeStatement(name) => OnDescribeStatement(s, name)
      case DescribePortal(name) => OnDescribePortal(s, name)
      case Execute(portal, maxRows) => OnExecute(s, portal, maxRows, reply)
      case CloseStatement(name) => OnCloseStatement(s, name)
      case ClosePortal(name) => Handled(s.(portals := s.portals - {name}), [CloseComplete], None)
      case Sync => Handled(s.(skipUntilSync := false), [ReadyForQuery(s.transaction)], None)
      case Flush => Handled(s, [], None)
      case Password => Handled(s, [], Some(ProtocolError))
      case Unsupported => Handled(s, [], Some(ProtocolError))
  }

  // One turn of the session's loop. A fault left over ends the session.
  function Turn(host: Host, s: State, m: Message, reply: Reply): Handled {
    var o := Dispatch(host, s, m, reply);
    match o.fault
    case None => o
    case Some(f) =>
      if Recoverable(f) then
        Handled(o.state.(skipUntilSync := true, transaction := FailTransaction(o.state.transaction)),
                o.frames + [ErrorResponse(false, f)], None)
      else Handled(o.state, o.frames + [ErrorResponse(true, f)], Some(f))
  }
}
