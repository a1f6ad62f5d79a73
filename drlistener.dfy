/**
 * The direct-request OCR listener: decoding of pipeline task outputs, routing
 * and dispatch of oracle logs, the per-request decision sequence and the
 * timeout sweeper's schedule. The ORM, the pipeline runner and the log
 * broadcaster are collaborators: their answers are parameters, and what the
 * listener asks of them is returned as a sequence of calls.
 */
module DRListener {
  import opened Wrappers
  import opened Hex

  const ParseResultTaskName: string := "parse_result"
  const ParseErrorTaskName: string := "parse_error"

  /** A request identifier, `[32]byte`. */
  type RequestId = s: seq<Byte> | |s| == 32 witness seq(32, i => 0)

  // ---------------------------------------------------------------------------
  // Task-output decoding and identifier formatting

  datatype ExtractError =
    | NotQuoted               // "unable to decode input"
    | NotEvenHex              // "input is not a valid, non-empty hex string of even length"
    | BadHex(cause: HexError) // rejected by TryParseHex

  /**
   * `ExtractRawBytes`: a JSON string output of a jsonparse task, either `""`
   * or a quoted `0x`-prefixed hex string with at least one byte.
   */
  function ExtractRawBytes(input: seq<Byte>): (r: Result<seq<Byte>, ExtractError>)
    ensures (|input| < 2 || input[0] != Quote || input[|input| - 1] != Quote) ==> r == Failure(NotQuoted)
    ensures input == [Quote, Quote] ==> r == Success([])
    ensures (|input| >= 2 && input[0] == Quote && input[|input| - 1] == Quote && (3 <= |input| < 6 || |input| % 2 != 0))
            ==> r == Failure(NotEvenHex)
    ensures r.Success? ==> (|input| == 2 && r.value == []) || (|input| == 2 * |r.value| + 4 && r.value != [])
  {
    if |input| < 2 || input[0] != Quote || input[|input| - 1] != Quote then Failure(NotQuoted)
    else
      var content := input[1..|input| - 1];
      if |content| == 0 then Success([])
      else if |content| < 4 || |content| % 2 != 0 then Failure(NotEvenHex)
      else
        match TryParseHex(content)
        case Failure(e) => Failure(BadHex(e))
        case Success(b) => Success(b)
  }

  /** A quoted lowercase rendering of any non-empty byte string decodes back to it. */
  lemma ExtractFormatted(b: seq<Byte>)
    requires b != []
    ensures ExtractRawBytes([Quote] + FormatHexBytes(b) + [Quote]) == Success(b)
  {
    var input := [Quote] + FormatHexBytes(b) + [Quote];
    assert input[1..|input| - 1] == FormatHexBytes(b);
    ParseFormatted(b);
  }

  /** Accepted and rejected shapes of the decoder: `""`, `"0xab"`, `"0xabcd"`, odd and unquoted input. */
  lemma ExtractExamples()
    ensures ExtractRawBytes([Quote, Quote]) == Success([])
    ensures ExtractRawBytes([Quote, 48, 120, 97, 98, Quote]) == Success([0xab])
    ensures ExtractRawBytes([Quote, 48, 120, 97, 98, 99, 100, Quote]) == Success([0xab, 0xcd])
    ensures ExtractRawBytes([Quote, 48, 120, 97, 98, 99, Quote]) == Failure(NotEvenHex)
    ensures ExtractRawBytes([Quote, 48, 120, Quote]) == Failure(NotEvenHex)
    ensures ExtractRawBytes([48, 120, 97, 98]) == Failure(NotQuoted)
  {
    var cd: seq<Byte> := [99, 100];
    var ab: seq<Byte> := [97, 98];
    assert DigitValue(ab[0]) == Some(10) && DigitValue(ab[1]) == Some(11);
    assert DigitValue(cd[0]) == Some(12) && DigitValue(cd[1]) == Some(13);
    assert cd[2..] == [] && ab[2..] == [];
    var xab: Byte, xcd: Byte := 0xab, 0xcd;
    assert DecodePairs(cd) == Some([xcd] + []);
    assert DecodePairs(ab) == Some([xab] + []);
    var abcd: seq<Byte> := [97, 98, 99, 100];
    assert abcd[..2] == ab && abcd[2..] == cd;
    assert DigitValue(abcd[0]) == Some(10) && DigitValue(abcd[1]) == Some(11);
    assert [xcd] + [] == [xcd];
    assert DecodePairs(abcd[2..]) == Some([xcd]);
    assert DecodePairs(abcd) == Some([xab] + [xcd]);
    var hexAb: seq<Byte> := [48, 120, 97, 98];
    assert [Quote, 48, 120, 97, 98, Quote][1..5] == hexAb && hexAb[2..] == ab;
    var hexAbcd: seq<Byte> := [48, 120, 97, 98, 99, 100];
    assert [Quote, 48, 120, 97, 98, 99, 100, Quote][1..7] == hexAbcd && hexAbcd[2..] == abcd;
    assert TryParseHex(hexAb) == Success([xab] + []);
    assert TryParseHex(hexAbcd) == Success([xab] + [xcd]);
    assert [xab] + [] == [0xab] && [xab] + [xcd] == [0xab, 0xcd];
  }

  /** `formatRequestId`: `0x` and the 32 bytes as 64 lowercase hex digits. */
  function FormatRequestId(id: RequestId): (r: string)
    ensures |r| == 66 && r[0] == '0' && r[1] == 'x'
    ensures forall i :: 2 <= i < 66 ==> ('0' <= r[i] <= '9' || 'a' <= r[i] <= 'f')
  {
    var bytes := FormatHexBytes(id);
    assert forall i :: 2 <= i < 66 ==> bytes[i] == EncodeLower(id)[i - 2] && IsLowerHexDigit(bytes[i]);
    ToChars(bytes)
  }

  /** The rendered identifier, quoted, decodes back to the identifier. */
  lemma FormatRequestIdRoundTrip(id: RequestId)
    ensures FormatRequestId(id) == ToChars(FormatHexBytes(id))
    ensures ExtractRawBytes([Quote] + FormatHexBytes(id) + [Quote]) == Success(id)
  {
    ExtractFormatted(id);
  }

  // ---------------------------------------------------------------------------
  // Logs, routing and the mailbox drain

  datatype OracleRequest = OracleRequest(requestId: RequestId, data: seq<Byte>, txHash: seq<Byte>)
  datatype OracleResponse = OracleResponse(requestId: RequestId)

  /** What `lb.DecodedLog()` yields; `NilLog` covers both a nil interface and a typed nil pointer. */
  datatype DecodedLog =
    | NilLog
    | RequestLog(request: OracleRequest)
    | ResponseLog(response: OracleResponse)
    | OtherLog(typeName: string)

  /** A log broadcast; `logIndex` stands for what identifies it to the consumed-marker store. */
  datatype Broadcast = Broadcast(logIndex: nat, decoded: DecodedLog)

  /** The answer of `WasAlreadyConsumed`. */
  datatype ConsumedCheck = NotConsumed | AlreadyConsumed | CheckFailed

  datatype HandlerKind = RequestHandler | ResponseHandler

  /** A handler goroutine started by the dispatcher for one log. */
  datatype Dispatch = Dispatch(kind: HandlerKind, lb: Broadcast)

  /** The handler a decoded log is routed to, if any. */
  function HandlerFor(d: DecodedLog): (r: Option<HandlerKind>)
    ensures r == Some(RequestHandler) <==> d.RequestLog?
    ensures r == Some(ResponseHandler) <==> d.ResponseLog?
  {
    match d
    case RequestLog(_) => Some(RequestHandler)
    case ResponseLog(_) => Some(ResponseHandler)
    case _ => None
  }

  predicate IsOracleEvent(d: DecodedLog)
  {
    HandlerFor(d).Some?
  }

  /** What the drain loop does with one retrieved entry. */
  function DispatchOf(lb: Broadcast, check: Broadcast -> ConsumedCheck): seq<Dispatch>
  {
    if check(lb) != NotConsumed then []
    else
      match HandlerFor(lb.decoded)
      case None => []
      case Some(k) => [Dispatch(k, lb)]
  }

  /** The handlers started for a run of retrieved entries, in retrieval order. */
  function Drained(q: seq<Broadcast>, check: Broadcast -> ConsumedCheck): (r: seq<Dispatch>)
    ensures |r| <= |q|
    decreases |q|
  {
    if q == [] then [] else Drained(q[..|q| - 1], check) + DispatchOf(q[|q| - 1], check)
  }

  /**
   * A handler is started exactly for each retrieved entry that the broadcaster
   * reports as not consumed and whose decoded log is a request or a response,
   * and its kind follows the log's type.
   */
  lemma {:induction false} DrainedMembers(q: seq<Broadcast>, check: Broadcast -> ConsumedCheck, d: Dispatch)
    ensures d in Drained(q, check) <==>
            d.lb in q && check(d.lb) == NotConsumed && HandlerFor(d.lb.decoded) == Some(d.kind)
    decreases |q|
  {
    if q != [] {
      var init := q[..|q| - 1];
      assert q == init + [q[|q| - 1]];
      DrainedMembers(init, check, d);
    }
  }

  /** The listener's own state: the mailbox contents and the handlers it has started. */
  class Listener {
    var mailbox: seq<Broadcast>
    var spawned: seq<Dispatch>
    /** The `shutdownWaitGroup` counter, ignoring the `Done` calls of finished tasks. */
    var waitGroup: nat

    ghost predicate Valid()
      reads this
    {
      && (forall i :: 0 <= i < |mailbox| ==> IsOracleEvent(mailbox[i].decoded))
      && (forall i :: 0 <= i < |spawned| ==> HandlerFor(spawned[i].lb.decoded) == Some(spawned[i].kind))
      && waitGroup == 3 + |spawned|
    }

    /** A listener just after `Start`: three tasks counted, nothing queued or dispatched. */
    constructor ()
      ensures Valid() && mailbox == [] && spawned == [] && waitGroup == 3
    {
      mailbox := [];
      spawned := [];
      waitGroup := 3;
    }

    /** `HandleLog`: only a decoded OracleRequest or OracleResponse reaches the mailbox. */
    method HandleLog(lb: Broadcast)
      requires Valid()
      modifies this`mailbox
      ensures Valid()
      ensures mailbox == old(mailbox) + (if IsOracleEvent(lb.decoded) then [lb] else [])
    {
      match lb.decoded {
        case NilLog =>
        case RequestLog(_) => mailbox := mailbox + [lb];
        case ResponseLog(_) => mailbox := mailbox + [lb];
        case OtherLog(_) =>
      }
    }

    /**
     * The inner loop of `processOracleEvents`. `check` is the broadcaster's
     * `WasAlreadyConsumed`; `stopAfter` is the number of retrievals after which
     * the stop channel is found closed (it stays closed once closed). Returns
     * whether the loop returned because of the stop signal.
     */
    method DrainMailbox(check: Broadcast -> ConsumedCheck, stopAfter: nat) returns (stopped: bool)
      requires Valid()
      modifies this`mailbox, this`spawned, this`waitGroup
      ensures Valid()
      ensures stopped <==> stopAfter <= |old(mailbox)|
      ensures var n := if stopped then stopAfter else |old(mailbox)|;
        && mailbox == old(mailbox)[n..]
        && spawned == old(spawned) + Drained(old(mailbox)[..n], check)
      ensures waitGroup == old(waitGroup) + (|spawned| - |old(spawned)|)
    {
      ghost var q0 := mailbox;
      ghost var s0 := spawned;
      var i := 0;
      while true
        invariant i <= |q0| && i <= stopAfter
        invariant mailbox == q0[i..]
        invariant spawned == s0 + Drained(q0[..i], check)
        invariant Valid()
        decreases |mailbox|
      {
        if i == stopAfter {
          return true;
        }
        if mailbox == [] {
          return false;
        }
        var lb := mailbox[0];
        mailbox := mailbox[1..];
        assert q0[..i + 1][..i] == q0[..i] && q0[i] == lb;
        i := i + 1;
        var was := check(lb);
        if was == CheckFailed || was == AlreadyConsumed {
          continue;
        }
        match lb.decoded {
          case NilLog =>
          case RequestLog(_) =>
            waitGroup := waitGroup + 1;
            spawned := spawned + [Dispatch(RequestHandler, lb)];
          case ResponseLog(_) =>
            waitGroup := waitGroup + 1;
            spawned := spawned + [Dispatch(ResponseHandler, lb)];
          case OtherLog(_) =>
        }
      }
    }
  }

  // ---------------------------------------------------------------------------
  // Handlers

  /** The answer of a collaborator that only reports success or an error text. */
  datatype Outcome = Done | Failed(message: seq<Byte>)

  datatype RunOutcome = RunSucceeded(runId: int) | RunFailed(message: seq<Byte>)

  /** `NODE_EXCEPTION` and `USER_EXCEPTION`. */
  datatype ErrorKind = NodeException | UserException

  /** The request-specific pipeline inputs; job metadata and block provenance pass through opaquely. */
  datatype PipelineVars = PipelineVars(requestId: string, data: string, logTxHash: seq<Byte>)

  /** A request the listener makes of the ORM or the pipeline runner. */
  datatype Call =
    | CreateRequest(requestId: RequestId, createdAt: int, txHash: seq<Byte>)
    | RunPipeline(vars: PipelineVars)
    | SetError(requestId: RequestId, runId: int, kind: ErrorKind, payload: seq<Byte>, at: int)
    | SetResult(requestId: RequestId, runId: int, payload: seq<Byte>, at: int)
    | SetConfirmed(requestId: RequestId)

  /** The `requestData` of the pipeline run: the rendered identifier and the `0x%x` rendering of the data. */
  function RequestVars(req: OracleRequest): (r: PipelineVars)
    ensures |r.requestId| == 66 && r.requestId[..2] == "0x"
    ensures |r.data| == 2 + 2 * |req.data| && r.data[..2] == "0x"
    ensures r.logTxHash == req.txHash
  {
    PipelineVars(FormatRequestId(req.requestId), FormatHex(req.data), req.txHash)
  }

  predicate RecordsOutcome(c: Call)
  {
    c.SetError? || c.SetResult?
  }

  /**
   * `handleOracleRequest`. `create` and `run` are the answers of
   * `CreateRequest` and the pipeline runner; `taskOutput(runId, name)` is
   * `FindTaskResultByRunIDAndTaskName`, failing with the error's text.
   * `createdAt` and `finishedAt` are the two readings of the clock.
   */
  method HandleOracleRequest(req: OracleRequest, create: Outcome, run: RunOutcome,
                             taskOutput: (int, string) -> Result<seq<Byte>, seq<Byte>>,
                             createdAt: int, finishedAt: int)
    returns (calls: seq<Call>)
    ensures 1 <= |calls| <= 3 && calls[0] == CreateRequest(req.requestId, createdAt, req.txHash)
    ensures create.Failed? <==> |calls| == 1
    ensures |calls| >= 2 ==> calls[1] == RunPipeline(RequestVars(req))
    ensures create.Done? && run.RunFailed? ==> |calls| == 2
    ensures forall i :: 0 <= i < |calls| - 1 ==> !RecordsOutcome(calls[i])
    ensures |calls| == 3 ==> RecordsOutcome(calls[2]) && run.RunSucceeded?
                             && calls[2].requestId == req.requestId && calls[2].runId == run.runId
                             && calls[2].at == finishedAt
    ensures forall i :: 0 <= i < |calls| && calls[i].SetError? && calls[i].kind == UserException ==> calls[i].payload != []
    ensures create.Done? && run.RunSucceeded? ==>
      var res, err := taskOutput(run.runId, ParseResultTaskName), taskOutput(run.runId, ParseErrorTaskName);
      var rest := calls[2..];
      && (res.Failure? ==> rest == [SetError(req.requestId, run.runId, NodeException, res.error, finishedAt)])
      && (res.Success? && ExtractRawBytes(res.value).Failure? ==> rest == [])
      && (res.Success? && ExtractRawBytes(res.value).Success? ==>
            && (err.Failure? ==> rest == [SetError(req.requestId, run.runId, NodeException, err.error, finishedAt)])
            && (err.Success? && ExtractRawBytes(err.value).Failure? ==> rest == [])
            && (err.Success? && ExtractRawBytes(err.value).Success? && ExtractRawBytes(err.value).value != [] ==>
                  rest == [SetError(req.requestId, run.runId, UserException, ExtractRawBytes(err.value).value, finishedAt)])
            && (err.Success? && ExtractRawBytes(err.value) == Success([]) ==>
                  rest == [SetResult(req.requestId, run.runId, ExtractRawBytes(res.value).value, finishedAt)]))
  {
    var vars := RequestVars(req);
    calls := [CreateRequest(req.requestId, createdAt, req.txHash)];
    if create.Failed? {
      return;
    }
    calls := calls + [RunPipeline(vars)];
    if run.RunFailed? {
      return;
    }
    var runId := run.runId;
    var computationResult := taskOutput(runId, ParseResultTaskName);
    if computationResult.Failure? {
      calls := calls + [SetError(req.requestId, runId, NodeException, computationResult.error, finishedAt)];
      return;
    }
    var result := ExtractRawBytes(computationResult.value);
    if result.Failure? {
      return;
    }
    var computationError := taskOutput(runId, ParseErrorTaskName);
    if computationError.Failure? {
      calls := calls + [SetError(req.requestId, runId, NodeException, computationError.error, finishedAt)];
      return;
    }
    var userError := ExtractRawBytes(computationError.value);
    if userError.Failure? {
      return;
    }
    if |userError.value| != 0 {
      calls := calls + [SetError(req.requestId, runId, UserException, userError.value, finishedAt)];
    } else {
      calls := calls + [SetResult(req.requestId, runId, result.value, finishedAt)];
    }
  }

  /** `handleOracleResponse`: one `SetConfirmed` for the response's request, whatever it answers. */
  method HandleOracleResponse(resp: OracleResponse) returns (calls: seq<Call>)
    ensures calls == [SetConfirmed(resp.requestId)]
  {
    calls := [SetConfirmed(resp.requestId)];
  }

  // ---------------------------------------------------------------------------
  // Timeout sweeper

  /** The three plugin settings the sweeper reads (`uint32` seconds and a batch size). */
  datatype PluginConfig = PluginConfig(requestTimeoutSec: nat, checkFrequencySec: nat, batchLookupSize: nat)

  const NanosPerSecond: int := 1_000_000_000

  /** What the sweeper's `select` observes: a tick at a clock reading (Unix nanoseconds), or stop. */
  datatype SweepEvent = Tick(now: int) | StopSweep

  /** A `TimeoutExpiredResults(cutoff, batchSize)` call. */
  datatype ExpiryQuery = TimeoutExpiredResults(cutoff: int, batchSize: nat)

  predicate SweepEnabled(cfg: PluginConfig)
  {
    cfg.requestTimeoutSec != 0 && cfg.checkFrequencySec != 0 && cfg.batchLookupSize != 0
  }

  /** `time.Now().Add(-(time.Duration(timeoutSec) * time.Second))`. */
  function Cutoff(cfg: PluginConfig, now: int): int
  {
    now - cfg.requestTimeoutSec * NanosPerSecond
  }

  /**
   * `timeoutRequests` over a finite trace of ticks and stop. A failing query
   * only breaks out of the `select`, so it does not end the loop and its
   * answer is not an input here.
   */
  method TimeoutRequests(cfg: PluginConfig, events: seq<SweepEvent>) returns (queries: seq<ExpiryQuery>)
    ensures !SweepEnabled(cfg) ==> queries == []
    ensures SweepEnabled(cfg) ==> |queries| <= |events|
    ensures SweepEnabled(cfg) ==> forall k :: 0 <= k < |queries| ==>
              events[k].Tick? && queries[k] == TimeoutExpiredResults(Cutoff(cfg, events[k].now), cfg.batchLookupSize)
    ensures SweepEnabled(cfg) ==> |queries| == |events| || events[|queries|] == StopSweep
  {
    queries := [];
    if cfg.requestTimeoutSec == 0 || cfg.checkFrequencySec == 0 || cfg.batchLookupSize == 0 {
      return;
    }
    var i := 0;
    while i < |events|
      invariant i <= |events| && |queries| == i
      invariant forall k :: 0 <= k < i ==>
                  events[k].Tick? && queries[k] == TimeoutExpiredResults(Cutoff(cfg, events[k].now), cfg.batchLookupSize)
    {
      match events[i] {
        case StopSweep =>
          return;
        case Tick(now) =>
          var cutoff := now - cfg.requestTimeoutSec * NanosPerSecond;
          queries := queries + [TimeoutExpiredResults(cutoff, cfg.batchLookupSize)];
      }
      i := i + 1;
    }
  }
}
