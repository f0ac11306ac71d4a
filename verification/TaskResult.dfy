/** How a dispatcher learns what became of its task: one request frame, one response frame, and
    a lookup that tells a stranger nothing. */
module TaskResult {
  import opened Bytes
  import opened Stream
  import opened TaskStore
  import opened Wire
  import opened Wrappers

  datatype ResultStatus = IsRunning | IsDone | IsFailed | IsInterrupted | IsUnknown

  datatype Response = Response(status: ResultStatus, output: bytes, error: string)

  const UNKNOWN := Response(IsUnknown, [], "")
  const NO_RECORD := "the executing node has no record of this task"

  /** Polling can stop: the run ended, or never will. */
  predicate IsFinished(r: Response) {
    r.status != IsRunning
  }

  function OfStatus(s: TaskStatus): ResultStatus {
    match s
    case Running => IsRunning
    case Done => IsDone
    case Failed => IsFailed
    case Interrupted => IsInterrupted
  }

  /** lookupResult: missing and someone else's read the same. */
  function Lookup(t: Table, id: string, requester: Peer): Response {
    if requester == "" then UNKNOWN
    else
      match ReceivedFor(t, id, requester)
      case None => UNKNOWN
      case Some(row) => Response(OfStatus(row.status), row.output, row.error)
  }

  /** recordSentResult: what a finished answer is stored as. */
  function StoredStatus(r: Response): TaskStatus {
    match r.status
    case IsDone => Done
    case IsInterrupted => Interrupted
    case _ => Failed
  }

  function StoredError(r: Response): string {
    if r.status == IsUnknown then NO_RECORD else r.error
  }

  /** A node that did not dispatch a task cannot tell it from one that never existed, and the one
      that did sees its row: anything but unknown is the row of a named requester's own task. */
  lemma OnlyTheDispatcherSees(t: Table, id: string, requester: Peer)
    ensures Lookup(t, id, requester) != UNKNOWN <==>
              requester != "" && Key(id, Received) in t && t[Key(id, Received)].peer == requester
    ensures Lookup(t, id, requester) != UNKNOWN ==>
              var (r, row) := (Lookup(t, id, requester), t[Key(id, Received)]);
              && r.output == row.output && r.error == row.error && (IsFinished(r) <==> Terminal(row.status))
              && (IsFinished(r) ==> StoredStatus(r) == row.status && StoredError(r) == row.error)
  {
  }

  /** Each status, as it is served and as a dispatcher stores it: a settled row's own, and a failure
      for a task the executor does not know. */
  lemma StatusServed(t: Table, id: string, requester: Peer)
    ensures var r := Lookup(t, id, requester);
            if r == UNKNOWN then r.status == IsUnknown && IsFinished(r) && StoredStatus(r) == Failed
            else
              match t[Key(id, Received)].status
              case Running => r.status == IsRunning && !IsFinished(r)
              case Done => r.status == IsDone && IsFinished(r) && StoredStatus(r) == Done
              case Failed => r.status == IsFailed && IsFinished(r) && StoredStatus(r) == Failed
              case Interrupted => r.status == IsInterrupted && IsFinished(r) && StoredStatus(r) == Interrupted
  {
    OnlyTheDispatcherSees(t, id, requester);
  }

  /** The words on the wire, and no other word is a status. */
  lemma StatusWords(s: ResultStatus, text: string)
    ensures ToAnswer(Response(s, [], "")).status == (match s case IsRunning => "running" case IsDone => "done"
                                                       case IsFailed => "failed" case IsInterrupted => "interrupted"
                                                       case IsUnknown => "unknown")
    ensures StatusOf(text) == Some(s) <==> text == ToAnswer(Response(s, [], "")).status
  {
  }

  // ----- frames

  /** A response as it travels: the status is text that may be anything. */
  datatype Answer = Answer(status: string, output: bytes, error: string)

  function StatusText(s: ResultStatus): string {
    match s
    case IsRunning => "running"
    case IsDone => "done"
    case IsFailed => "failed"
    case IsInterrupted => "interrupted"
    case IsUnknown => "unknown"
  }

  function StatusOf(text: string): Option<ResultStatus> {
    if text == "running" then Some(IsRunning)
    else if text == "done" then Some(IsDone)
    else if text == "failed" then Some(IsFailed)
    else if text == "interrupted" then Some(IsInterrupted)
    else if text == "unknown" then Some(IsUnknown)
    else None
  }

  function ToAnswer(r: Response): Answer {
    Answer(StatusText(r.status), r.output, r.error)
  }

  datatype ExchangeError = Wire(error: WireError) | TooBig(length: nat) | NotWritten | BadStatus(text: string)

  /** writeResultFrame: a body over the cap is not sent at all. */
  method WriteResult<T(!new)>(c: Conn, codec: Codec<T>, x: T) returns (err: Option<ExchangeError>)
    modifies c`written, c`room
    ensures var f := PrintJson(RESULT, codec, x);
            if |codec.enc(x)| > RESULT.cap then err == Some(TooBig(|codec.enc(x)|)) && c.written == old(c.written)
            else
              && err == (if |f| <= old(c.room) then None else Some(NotWritten))
              && c.written == old(c.written) + f[..Min(|f|, old(c.room))]
  {
    var body := codec.enc(x);
    if |body| > RESULT.cap {
      return Some(TooBig(|body|));
    }
    var sent := c.Write(Tag(RESULT) + Be(RESULT.width, |body|) + body);
    return if sent.Some? then Some(NotWritten) else None;
  }

  function Understood(answers: Codec<Answer>, s: bytes, ending: Ending): Result<Response, ExchangeError> {
    match ParseJson(RESULT, answers, s, ending)
    case Bad(e, _) => Err(Wire(e))
    case Got(a, _) =>
      match StatusOf(a.status)
      case None => Err(BadStatus(a.status))
      case Some(st) => Ok(Response(st, a.output, a.error))
  }

  /** AskResult. A response comes back only when the whole request went out and a whole answer
      with a known status came in. */
  method AskResult(c: Conn, requests: Codec<string>, answers: Codec<Answer>, id: string)
    returns (r: Result<Response, ExchangeError>)
    modifies c
    ensures var f := PrintJson(RESULT, requests, id);
            if |requests.enc(id)| > RESULT.cap then r == Err(TooBig(|requests.enc(id)|)) && c.written == old(c.written)
            else if |f| > old(c.room) then r == Err(NotWritten)
            else r == Understood(answers, old(c.pending), c.ending) && c.written == old(c.written) + f
  {
    var err := WriteResult(c, requests, id);
    if err.Some? {
      return Err(err.value);
    }
    ghost var f := PrintJson(RESULT, requests, id);
    assert f[..|f|] == f;
    var p := ReadJson(c, RESULT, answers);
    match p {
      case Bad(e, _) => r := Err(Wire(e));
      case Got(a, _) =>
        var st := StatusOf(a.status);
        r := if st.Some? then Ok(Response(st.value, a.output, a.error)) else Err(BadStatus(a.status));
    }
  }

  /** ServeResult with receiveResult's lookup. An ID that is no UUID is not looked up, and a table
      that cannot be read answers unknown. */
  method ServeResult(c: Conn, requests: Codec<string>, answers: Codec<Answer>, isUuid: string -> bool,
                     store: Store, requester: Peer) returns (err: Option<ExchangeError>, ghost served: Option<Response>)
    modifies c
    ensures var p := ParseJson(RESULT, requests, old(c.pending), c.ending);
            match p
            case Bad(e, _) => err == Some(Wire(e)) && served.None? && c.written == old(c.written)
            case Got(id, _) =>
              && served.Some?
              && (served.value == UNKNOWN || (isUuid(id) && served.value == Lookup(store.tasks, id, requester)))
              && (store.reliable && isUuid(id) ==> served.value == Lookup(store.tasks, id, requester))
              && var f := PrintJson(RESULT, answers, ToAnswer(served.value));
                 if |answers.enc(ToAnswer(served.value))| > RESULT.cap then c.written == old(c.written) && err.Some?
                 else
                   && c.written == old(c.written) + f[..Min(|f|, old(c.room))]
                   && err == if |f| <= old(c.room) then None else Some(NotWritten)
  {
    served := None;
    var p := ReadJson(c, RESULT, requests);
    match p {
      case Bad(e, _) =>
        err := Some(Wire(e));
      case Got(id, _) =>
        var r := UNKNOWN;
        if isUuid(id) && requester != "" {
          var row := store.ReceivedTaskFor(id, requester);
          if row.Ok? {
            r := Response(OfStatus(row.value.status), row.value.output, row.value.error);
          } else {
            assert row == Err(row.error) && (row.error.Database? || row.error.NotFound?);
          }
        }
        served := Some(r);
        err := WriteResult(c, answers, ToAnswer(r));
    }
  }

  /** What one end writes the other end reads: a request that arrives is the one that was asked,
      and a response is the one that was served, whatever follows on the connection. */
  lemma ExchangeRoundTrip(requests: Codec<string>, answers: Codec<Answer>, id: string, r: Response, rest: bytes,
                          ending: Ending)
    requires requests.Keeps(id) && answers.Keeps(ToAnswer(r))
    requires |requests.enc(id)| <= RESULT.cap && |answers.enc(ToAnswer(r))| <= RESULT.cap
    ensures ParseJson(RESULT, requests, PrintJson(RESULT, requests, id) + rest, ending) == Got(id, rest)
    ensures Understood(answers, PrintJson(RESULT, answers, ToAnswer(r)) + rest, ending) == Ok(r)
  {
    ShapesSound();
    JsonRoundTrip(RESULT, requests, id, rest, ending);
    JsonRoundTrip(RESULT, answers, ToAnswer(r), rest, ending);
  }

  /** No answer can be mistaken for one that was not given: half of it is an error, never a
      result. */
  lemma HalfAnswerIsNoAnswer(answers: Codec<Answer>, r: Response, k: nat)
    requires |answers.enc(ToAnswer(r))| <= RESULT.cap && k < |PrintJson(RESULT, answers, ToAnswer(r))|
    ensures Understood(answers, PrintJson(RESULT, answers, ToAnswer(r))[..k], Closed).Err?
  {
    ShapesSound();
    PrefixIsShort(RESULT, Raw(Tag(RESULT), answers.enc(ToAnswer(r))), k);
  }
}
