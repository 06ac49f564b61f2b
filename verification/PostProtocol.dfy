/** The two-stage command protocol of the POST handler: accept, execute, seal, with every handler running
    concurrently against one shared audit journal. */
module PostProtocol {
  import opened Numbers

  datatype Denial = DeniedHost | DeniedSession | DeniedRole | DeniedLicense | DeniedInput

  datatype Verdict = Accepted | Completed | Failed | Denied(reason: Denial)

  /** A journal entry, as far as the protocol determines it. */
  datatype Receipt = Receipt(command: nat, verdict: Verdict, status: int, authenticated: bool, digest: string)

  /** `Direct` routes answer or raise; `Guarded` routes turn the service's validation error into a 400;
      `Missing` is an unknown path. */
  datatype Route = Direct(okStatus: int) | Guarded(okStatus: int) | Missing

  /** A request with the verdicts of the surrounding checks. `bodyError` is the status of an unreadable body. */
  datatype Request = Request(
    auditOperational: bool, hostOk: bool, tokenOk: bool, roleOk: bool, licensed: bool,
    bodyError: Option<int>, bodyDigest: string, route: Route)

  const EMPTY_DIGEST: string := "e3b0c44298fc1c149afbf4c8996fb92427ae41e4649b934ca495991b7852b855"

  datatype Body = AuditUnavailable | WriteFailed | Refused(reason: Denial) | Answer | CompletionFailed

  datatype Response = Response(status: int, body: Body)

  datatype Refusal = Refusal(reason: Denial, status: int, authenticated: bool, digest: string)

  /** The first failing check, in the order the handler makes them. */
  function FirstRefusal(q: Request): Option<Refusal> {
    if !q.hostOk then Some(Refusal(DeniedHost, 421, false, EMPTY_DIGEST))
    else if !q.tokenOk then Some(Refusal(DeniedSession, 403, false, EMPTY_DIGEST))
    else if !q.roleOk then Some(Refusal(DeniedRole, 403, true, EMPTY_DIGEST))
    else if !q.licensed then Some(Refusal(DeniedLicense, 403, true, EMPTY_DIGEST))
    else if q.bodyError.Some? then Some(Refusal(DeniedInput, q.bodyError.value, true, q.bodyDigest))
    else None
  }

  /** What a service call may do. */
  datatype Result = Succeeds | RaisesValidation | RaisesOther

  /** The status the route answers with, None when it raises out of the handler. */
  function RouteStatus(route: Route, result: Result): Option<int> {
    match route
    case Missing => Some(404)
    case Direct(status) => if result == Succeeds then Some(status) else None
    case Guarded(status) =>
      if result == Succeeds then Some(status) else if result == RaisesValidation then Some(400) else None
  }

  // ---- one handler as a step program ----

  datatype Pc =
    | Start
    | Denying(refusal: Refusal)   // about to record a denial
    | Accepting                   // about to record ACCEPTED
    | Serving                     // ACCEPTED recorded, service not yet called
    | Sealing(result: int)        // service returned, about to record the terminal receipt
    | Done(response: Response)
    | Crashed                     // the route raised out of the handler

  /** What the environment decides in a step: whether a journal append is sealed, how the service behaves. */
  datatype Choice = Choice(sealed: bool, result: Result)

  /** A step's effect: next position, receipt appended, whether the service was called. */
  datatype Effect = Effect(pc: Pc, receipts: seq<Receipt>, calls: bool)

  function TerminalVerdict(status: int): Verdict { if status < 400 then Completed else Failed }

  function Advance(id: nat, q: Request, pc: Pc, c: Choice): Effect {
    match pc
    case Start =>
      Effect(
        if !q.auditOperational then Done(Response(503, AuditUnavailable))
        else if FirstRefusal(q).Some? then Denying(FirstRefusal(q).value)
        else Accepting, [], false)
    case Denying(r) =>
      if c.sealed then Effect(Done(Response(r.status, Refused(r.reason))), [DenialReceipt(id, r)], false)
      else Effect(Done(Response(503, WriteFailed)), [], false)
    case Accepting =>
      if c.sealed then Effect(Serving, [Receipt(id, Accepted, 0, true, q.bodyDigest)], false)
      else Effect(Done(Response(503, WriteFailed)), [], false)
    case Serving =>
      var status := RouteStatus(q.route, c.result);
      Effect(if status.Some? then Sealing(status.value) else Crashed, [], q.route != Missing)
    case Sealing(status) =>
      if c.sealed then Effect(Done(Response(status, Answer)), [SealReceipt(id, q, status)], false)
      else Effect(Done(Response(500, CompletionFailed)), [], false)
    case Done(_) => Effect(pc, [], false)
    case Crashed => Effect(pc, [], false)
  }

  // ---- all handlers together ----

  datatype Handler = Handler(request: Request, pc: Pc)

  /** A service call and how long the journal was when it was made. */
  datatype Call = Call(command: nat, journalLength: nat)

  datatype System = System(journal: seq<Receipt>, handlers: map<nat, Handler>, calls: seq<Call>)

  const IDLE: System := System([], map[], [])

  datatype Event = Arrive(id: nat, request: Request) | Run(id: nat, choice: Choice)

  /** A new request gets a fresh command id; otherwise some handler makes its next step. */
  ghost predicate Step(s: System, n: System, e: Event) {
    match e
    case Arrive(id, q) => id !in s.handlers && n == s.(handlers := s.handlers[id := Handler(q, Start)])
    case Run(id, c) =>
      && id in s.handlers
      && var h := s.handlers[id];
         var effect := Advance(id, h.request, h.pc, c);
         n == System(
           s.journal + effect.receipts,
           s.handlers[id := Handler(h.request, effect.pc)],
           if effect.calls then s.calls + [Call(id, |s.journal|)] else s.calls)
  }

  ghost predicate Next(s: System, n: System) { exists e :: Step(s, n, e) }

  ghost predicate IsRun(run: seq<System>) {
    run != [] && run[0] == IDLE && forall i | 0 < i < |run| :: Next(run[i - 1], run[i])
  }

  /** The journal projected to one command. */
  function Mine(journal: seq<Receipt>, id: nat): seq<Receipt> {
    if journal == [] then []
    else
      var last := journal[|journal| - 1];
      Mine(journal[..|journal| - 1], id) + (if last.command == id then [last] else [])
  }

  lemma {:induction false} MineAppend(journal: seq<Receipt>, more: seq<Receipt>, id: nat)
    ensures Mine(journal + more, id) == Mine(journal, id) + Mine(more, id)
  {
    if more == [] {
      assert journal + more == journal;
    } else {
      var n := |more| - 1;
      assert (journal + more)[..|journal + more| - 1] == journal + more[..n];
      MineAppend(journal, more[..n], id);
    }
  }

  function AcceptedReceipt(id: nat, q: Request): Receipt { Receipt(id, Accepted, 0, true, q.bodyDigest) }

  function SealReceipt(id: nat, q: Request, status: int): Receipt {
    Receipt(id, TerminalVerdict(status), status, true, q.bodyDigest)
  }

  function DenialReceipt(id: nat, r: Refusal): Receipt {
    Receipt(id, Denied(r.reason), r.status, r.authenticated, r.digest)
  }

  ghost predicate Admitted(q: Request) { q.auditOperational && FirstRefusal(q).None? }

  /** What the journal says about a command at each position of its handler. */
  ghost predicate Receipted(id: nat, q: Request, pc: Pc, mine: seq<Receipt>) {
    match pc
    case Start => mine == []
    case Denying(r) => q.auditOperational && FirstRefusal(q) == Some(r) && mine == []
    case Accepting => Admitted(q) && mine == []
    case Serving => Admitted(q) && mine == [AcceptedReceipt(id, q)]
    case Sealing(status) =>
      Admitted(q) && mine == [AcceptedReceipt(id, q)] && exists result :: RouteStatus(q.route, result) == Some(status)
    case Crashed =>
      Admitted(q) && mine == [AcceptedReceipt(id, q)] && exists result :: RouteStatus(q.route, result) == None
    case Done(Response(status, body)) =>
      match body
      case AuditUnavailable => !q.auditOperational && status == 503 && mine == []
      case WriteFailed => q.auditOperational && status == 503 && mine == []
      case Refused(reason) =>
        && q.auditOperational && FirstRefusal(q).Some?
        && FirstRefusal(q).value.reason == reason && FirstRefusal(q).value.status == status
        && mine == [DenialReceipt(id, FirstRefusal(q).value)]
      case Answer =>
        && Admitted(q) && mine == [AcceptedReceipt(id, q), SealReceipt(id, q, status)]
        && exists result :: RouteStatus(q.route, result) == Some(status)
      case CompletionFailed => Admitted(q) && status == 500 && mine == [AcceptedReceipt(id, q)]
  }

  ghost predicate HandlerOk(s: System, id: nat)
    requires id in s.handlers
  {
    Receipted(id, s.handlers[id].request, s.handlers[id].pc, Mine(s.journal, id))
  }

  /** A call was made while the command's own ACCEPTED was already in the journal, and at most once. */
  ghost predicate CallOk(s: System, k: nat)
    requires k < |s.calls|
  {
    var c := s.calls[k];
    && c.journalLength <= |s.journal| && c.command in s.handlers
    && Mine(s.journal[..c.journalLength], c.command) == [AcceptedReceipt(c.command, s.handlers[c.command].request)]
    && (s.handlers[c.command].pc.Sealing? || s.handlers[c.command].pc.Done? || s.handlers[c.command].pc.Crashed?)
    && forall j | 0 <= j < |s.calls| && s.calls[j].command == c.command :: j == k
  }

  ghost predicate SystemOk(s: System) {
    && (forall id | id in s.handlers :: HandlerOk(s, id))
    && (forall id | id !in s.handlers :: Mine(s.journal, id) == [])
    && (forall k | 0 <= k < |s.calls| :: CallOk(s, k))
  }

  lemma AdvanceKeepsReceipts(id: nat, q: Request, pc: Pc, c: Choice, mine: seq<Receipt>)
    requires Receipted(id, q, pc, mine)
    ensures var e := Advance(id, q, pc, c);
      Receipted(id, q, e.pc, mine + e.receipts) && forall i | 0 <= i < |e.receipts| :: e.receipts[i].command == id
  {
    var e := Advance(id, q, pc, c);
    if pc.Serving? {
      assert mine + [] == mine;
      assert RouteStatus(q.route, c.result) == RouteStatus(q.route, c.result);
    } else if e.receipts == [] {
      assert mine + e.receipts == mine;
    } else if pc.Denying? || pc.Accepting? {
      assert mine + e.receipts == e.receipts;
    }
  }

  lemma {:induction false} OnlyMine(rs: seq<Receipt>, id: nat, other: nat)
    requires forall i | 0 <= i < |rs| :: rs[i].command == id
    ensures Mine(rs, id) == rs
    ensures other != id ==> Mine(rs, other) == []
  {
    if rs != [] {
      OnlyMine(rs[..|rs| - 1], id, other);
      assert rs == rs[..|rs| - 1] + [rs[|rs| - 1]];
    }
  }

  lemma StepKeepsHandlers(s: System, n: System, e: Event)
    requires SystemOk(s) && Step(s, n, e)
    ensures s.journal <= n.journal
    ensures forall id | id in n.handlers :: HandlerOk(n, id)
    ensures forall id | id !in n.handlers :: Mine(n.journal, id) == []
  {
    match e
    case Arrive(id, q) =>
      forall j | j in n.handlers ensures HandlerOk(n, j) {
        if j != id { assert HandlerOk(s, j); }
      }
    case Run(id, c) =>
      var h := s.handlers[id];
      var effect := Advance(id, h.request, h.pc, c);
      assert HandlerOk(s, id);
      AdvanceKeepsReceipts(id, h.request, h.pc, c, Mine(s.journal, id));
      forall j: nat ensures Mine(n.journal, j) == Mine(s.journal, j) + if j == id then effect.receipts else [] {
        MineAppend(s.journal, effect.receipts, j);
        OnlyMine(effect.receipts, id, j);
      }
      forall j | j in n.handlers ensures HandlerOk(n, j) {
        if j != id { assert HandlerOk(s, j); }
      }
  }

  /** A call made earlier stays sound. */
  lemma StepKeepsOldCall(s: System, n: System, e: Event, k: nat)
    requires SystemOk(s) && Step(s, n, e) && k < |s.calls|
    ensures CallOk(n, k)
  {
    assert CallOk(s, k);
    assert s.journal <= n.journal;
    assert n.journal[..s.calls[k].journalLength] == s.journal[..s.calls[k].journalLength];
    if |n.calls| > |s.calls| {
      assert s.handlers[e.id].pc.Serving?;
    }
  }

  /** A call made by this step is sound. */
  lemma StepKeepsNewCall(s: System, n: System, e: Event)
    requires SystemOk(s) && Step(s, n, e) && |n.calls| > |s.calls|
    ensures |n.calls| == |s.calls| + 1 && CallOk(n, |s.calls|)
  {
    var id := e.id;
    assert HandlerOk(s, id) && s.handlers[id].pc.Serving?;
    assert n.journal[..|s.journal|] == s.journal;
    forall j | 0 <= j < |s.calls| ensures s.calls[j].command != id { assert CallOk(s, j); }
  }

  lemma StepKeepsOk(s: System, n: System, e: Event)
    requires SystemOk(s) && Step(s, n, e)
    ensures SystemOk(n) && s.journal <= n.journal
  {
    StepKeepsHandlers(s, n, e);
    forall k | 0 <= k < |n.calls| ensures CallOk(n, k) {
      if k < |s.calls| { StepKeepsOldCall(s, n, e, k); } else { StepKeepsNewCall(s, n, e); }
    }
  }

  lemma {:induction false} RunKeepsOk(run: seq<System>)
    requires IsRun(run)
    ensures SystemOk(run[|run| - 1])
  {
    if |run| > 1 {
      var init := run[..|run| - 1];
      forall i | 0 < i < |init| ensures Next(init[i - 1], init[i]) { assert Next(run[i - 1], run[i]); }
      RunKeepsOk(init);
      assert Next(run[|run| - 2], run[|run| - 1]);
      var e :| Step(run[|run| - 2], run[|run| - 1], e);
      StepKeepsOk(run[|run| - 2], run[|run| - 1], e);
    }
  }

  // ---- what every interleaving guarantees ----

  function RefusalResponse(r: Refusal): Response { Response(r.status, Refused(r.reason)) }

  ghost predicate WellFormed(mine: seq<Receipt>) {
    || mine == []
    || (|mine| == 1 && (mine[0].verdict.Denied? || mine[0].verdict.Accepted?))
    || (|mine| == 2 && mine[0].verdict.Accepted? && (mine[1].verdict.Completed? || mine[1].verdict.Failed?)
        && (mine[1].verdict.Completed? <==> mine[1].status < 400))
  }

  /** In every reachable state of every interleaving: each command's receipts are [], [DENIED], [ACCEPTED],
      [ACCEPTED, COMPLETED] or [ACCEPTED, FAILED], COMPLETED exactly for a status below 400; unauthenticated receipts
      are exactly the host and session denials. */
  lemma ReceiptsAreWellFormed(run: seq<System>, id: nat)
    requires IsRun(run)
    ensures var mine := Mine(run[|run| - 1].journal, id);
      WellFormed(mine) && forall i | 0 <= i < |mine| ::
        !mine[i].authenticated <==> mine[i].verdict == Denied(DeniedHost) || mine[i].verdict == Denied(DeniedSession)
  {
    RunKeepsOk(run);
    var s := run[|run| - 1];
    if id in s.handlers {
      assert HandlerOk(s, id);
      ReceiptedIsWellFormed(id, s.handlers[id].request, s.handlers[id].pc, Mine(s.journal, id));
    }
  }

  lemma ReceiptedIsWellFormed(id: nat, q: Request, pc: Pc, mine: seq<Receipt>)
    requires Receipted(id, q, pc, mine)
    ensures WellFormed(mine)
    ensures forall i | 0 <= i < |mine| ::
      !mine[i].authenticated <==> mine[i].verdict == Denied(DeniedHost) || mine[i].verdict == Denied(DeniedSession)
  {
  }

  /** A service is called at most once per command, only for an admitted request, and only after the command's own
      ACCEPTED receipt is in the journal. */
  lemma CallsFollowAcceptance(run: seq<System>, k: nat)
    requires IsRun(run) && k < |run[|run| - 1].calls|
    ensures var s := run[|run| - 1];
      var c := s.calls[k];
      && c.journalLength <= |s.journal| && c.command in s.handlers
      && Admitted(s.handlers[c.command].request)
      && Mine(s.journal[..c.journalLength], c.command) == [AcceptedReceipt(c.command, s.handlers[c.command].request)]
      && forall j | 0 <= j < |s.calls| && s.calls[j].command == c.command :: j == k
  {
    RunKeepsOk(run);
    var s := run[|run| - 1];
    assert CallOk(s, k);
    assert HandlerOk(s, s.calls[k].command);
    assert Mine(s.journal[..s.calls[k].journalLength], s.calls[k].command) != [];
    CallerWasAdmitted(s, s.calls[k].command, s.calls[k].journalLength);
  }

  lemma CallerWasAdmitted(s: System, id: nat, n: nat)
    requires id in s.handlers && HandlerOk(s, id) && n <= |s.journal|
    requires Mine(s.journal[..n], id) == [AcceptedReceipt(id, s.handlers[id].request)]
    ensures Admitted(s.handlers[id].request)
  {
    FirstReceiptStays(s.journal, id, n);
    ReceiptedAccepted(id, s.handlers[id].request, s.handlers[id].pc, Mine(s.journal, id));
  }

  lemma FirstReceiptStays(journal: seq<Receipt>, id: nat, n: nat)
    requires n <= |journal| && Mine(journal[..n], id) != []
    ensures Mine(journal, id) != [] && Mine(journal, id)[0] == Mine(journal[..n], id)[0]
  {
    assert journal == journal[..n] + journal[n..];
    MineAppend(journal[..n], journal[n..], id);
  }

  lemma ReceiptedAccepted(id: nat, q: Request, pc: Pc, mine: seq<Receipt>)
    requires Receipted(id, q, pc, mine) && mine != [] && mine[0].verdict.Accepted?
    ensures Admitted(q)
  {
  }

  /** What a response tells about the journal. Once a command is accepted, any response other than
      `audit_completion_failed` has a durable terminal receipt with the same status; a denial is backed by its
      receipt and names the first failing check; no response without receipt pretends an outcome; a crashed route
      leaves exactly ACCEPTED. */
  lemma ResponsesAreBacked(run: seq<System>, id: nat)
    requires IsRun(run) && id in run[|run| - 1].handlers
    ensures var s := run[|run| - 1];
      var h, mine := s.handlers[id], Mine(s.journal, id);
      && (h.pc.Crashed? ==> mine == [AcceptedReceipt(id, h.request)])
      && (h.pc.Done? && mine != [] && mine[0].verdict.Accepted? && h.pc.response.body != CompletionFailed ==>
            |mine| == 2 && mine[1].status == h.pc.response.status && h.pc.response.body == Answer)
      && (h.pc.Done? && h.pc.response.body.Refused? ==>
            FirstRefusal(h.request).Some? && mine == [DenialReceipt(id, FirstRefusal(h.request).value)]
            && h.pc.response == RefusalResponse(FirstRefusal(h.request).value))
      && (h.pc.Done? && h.pc.response.body == Answer ==> Admitted(h.request) && |mine| == 2)
  {
    RunKeepsOk(run);
    assert HandlerOk(run[|run| - 1], id);
  }

  // ---- the handler object ----

  /** One handler run to its end without interference. */
  function Alone(id: nat, q: Request, first: bool, result: Result, second: bool): (Pc, seq<Receipt>, bool) {
    var a := Advance(id, q, Start, Choice(first, result));
    var b := Advance(id, q, a.pc, Choice(first, result));
    var c := Advance(id, q, b.pc, Choice(first, result));
    var d := Advance(id, q, c.pc, Choice(second, result));
    (d.pc, a.receipts + b.receipts + c.receipts + d.receipts, a.calls || b.calls || c.calls || d.calls)
  }

  /** The same, read off the request and the environment directly. */
  function Outcome(id: nat, q: Request, first: bool, result: Result, second: bool): (Pc, seq<Receipt>, bool) {
    if !q.auditOperational then (Done(Response(503, AuditUnavailable)), [], false)
    else if FirstRefusal(q).Some? then
      var r := FirstRefusal(q).value;
      if first then (Done(RefusalResponse(r)), [DenialReceipt(id, r)], false)
      else (Done(Response(503, WriteFailed)), [], false)
    else if !first then (Done(Response(503, WriteFailed)), [], false)
    else
      var status := RouteStatus(q.route, result);
      var accepted := AcceptedReceipt(id, q);
      if status.None? then (Crashed, [accepted], true)
      else if second then
        (Done(Response(status.value, Answer)), [accepted, SealReceipt(id, q, status.value)], q.route != Missing)
      else (Done(Response(500, CompletionFailed)), [accepted], q.route != Missing)
  }

  /** A handler running alone through its steps ends with that outcome. */
  lemma OutcomeIsAlone(id: nat, q: Request, first: bool, result: Result, second: bool)
    ensures Alone(id, q, first, result, second) == Outcome(id, q, first, result, second)
  {
    assert Alone(id, q, first, result, second).1 == Outcome(id, q, first, result, second).1;
  }

  class Journal {
    var receipts: seq<Receipt>

    constructor ()
      ensures receipts == []
    {
      receipts := [];
    }

    /** `record_operator_command`; `sealed` is whether the append succeeds. */
    method Record(r: Receipt, sealed: bool) returns (ok: bool)
      modifies this
      ensures ok == sealed
      ensures receipts == if sealed then old(receipts) + [r] else old(receipts)
    {
      if sealed { receipts := receipts + [r]; }
      ok := sealed;
    }
  }

  class PostHandler {
    const journal: Journal
    const command: nat
    /** `_audit_completion`: the digest of an accepted command that still lacks its terminal receipt. */
    var completion: Option<string>
    var sent: Option<Response>
    var served: bool

    constructor (journal: Journal, command: nat)
      ensures this.journal == journal && this.command == command && completion == None && sent == None && !served
    {
      this.journal, this.command, completion, sent, served := journal, command, None, None, false;
    }

    /** Seals the pending completion, if any, before anything is sent. */
    method SendJson(status: int, body: Body, sealed: bool)
      modifies this`completion, this`sent, journal
      ensures completion == None
      ensures old(completion).None? ==> sent == Some(Response(status, body))
      ensures old(completion).None? ==> journal.receipts == old(journal.receipts)
      ensures old(completion).Some? && sealed ==> sent == Some(Response(status, body))
      ensures old(completion).Some? && sealed ==> (journal.receipts ==
        old(journal.receipts) + [Receipt(command, TerminalVerdict(status), status, true, old(completion).value)])
      ensures old(completion).Some? && !sealed ==> sent == Some(Response(500, CompletionFailed))
      ensures old(completion).Some? && !sealed ==> journal.receipts == old(journal.receipts)
    {
      var pending := completion;
      var s, b := status, body;
      if pending.Some? {
        completion := None;
        var ok := journal.Record(Receipt(command, TerminalVerdict(status), status, true, pending.value), sealed);
        if !ok {
          s, b := 500, CompletionFailed;
        }
      }
      sent := Some(Response(s, b));
    }

    method DenyPost(r: Refusal, sealed: bool)
      requires completion == None
      modifies this`completion, this`sent, journal
      ensures completion == None
      ensures sealed ==> journal.receipts == old(journal.receipts) + [DenialReceipt(command, r)]
      ensures sealed ==> sent == Some(Response(r.status, Refused(r.reason)))
      ensures !sealed ==> journal.receipts == old(journal.receipts) && sent == Some(Response(503, WriteFailed))
    {
      var ok := journal.Record(DenialReceipt(command, r), sealed);
      if !ok {
        SendJson(503, WriteFailed, true);
      } else {
        SendJson(r.status, Refused(r.reason), true);
      }
    }

    /** `first` and `second` say whether the accept (or denial) and the terminal append succeed. Returns whether the
        handler ended normally. The object ends where the step program ends, with the same receipts. */
    method DoPost(q: Request, first: bool, result: Result, second: bool) returns (normal: bool)
      requires sent == None && !served
      modifies this, journal
      ensures var (pc, receipts, calls) := Outcome(command, q, first, result, second);
        && journal.receipts == old(journal.receipts) + receipts
        && served == calls
        && (normal <==> pc.Done?) && (!normal <==> pc.Crashed?)
        && (normal ==> sent == Some(pc.response) && completion == None)
        && (!normal ==> sent == None && completion.Some?)
    {
      completion := None;
      if !q.auditOperational {
        SendJson(503, AuditUnavailable, second);
        return true;
      }
      var refused := Deny(q, first);
      if refused {
        return true;
      }
      var ok := journal.Record(AcceptedReceipt(command, q), first);
      if !ok {
        SendJson(503, WriteFailed, second);
        return true;
      }
      completion := Some(q.bodyDigest);
      normal := Serve(q.route, result, second);
    }

    /** The checks before acceptance; the first that fails is recorded and answered. */
    method Deny(q: Request, sealed: bool) returns (refused: bool)
      requires completion == None
      modifies this`completion, this`sent, journal
      ensures completion == None && (refused <==> FirstRefusal(q).Some?)
      ensures !refused ==> journal.receipts == old(journal.receipts) && sent == old(sent)
      ensures refused && sealed ==>
        journal.receipts == old(journal.receipts) + [DenialReceipt(command, FirstRefusal(q).value)]
      ensures refused && sealed ==> sent == Some(RefusalResponse(FirstRefusal(q).value))
      ensures refused && !sealed ==> journal.receipts == old(journal.receipts)
      ensures refused && !sealed ==> sent == Some(Response(503, WriteFailed))
    {
      if !q.hostOk {
        DenyPost(Refusal(DeniedHost, 421, false, EMPTY_DIGEST), sealed);
        return true;
      }
      if !q.tokenOk {
        DenyPost(Refusal(DeniedSession, 403, false, EMPTY_DIGEST), sealed);
        return true;
      }
      if !q.roleOk {
        DenyPost(Refusal(DeniedRole, 403, true, EMPTY_DIGEST), sealed);
        return true;
      }
      if !q.licensed {
        DenyPost(Refusal(DeniedLicense, 403, true, EMPTY_DIGEST), sealed);
        return true;
      }
      if q.bodyError.Some? {
        DenyPost(Refusal(DeniedInput, q.bodyError.value, true, q.bodyDigest), sealed);
        return true;
      }
      refused := false;
    }

    /** The accepted part: call the service of the route and answer, or let its exception escape. */
    method Serve(route: Route, result: Result, sealed: bool) returns (normal: bool)
      requires completion.Some? && sent == None && !served
      modifies this, journal
      ensures served <==> route != Missing
      ensures normal <==> RouteStatus(route, result).Some?
      ensures !normal ==> sent == None && completion == old(completion) && journal.receipts == old(journal.receipts)
      ensures normal ==> completion == None
      ensures normal && sealed ==> sent == Some(Response(RouteStatus(route, result).value, Answer))
      ensures normal && sealed ==> journal.receipts == old(journal.receipts) + [Receipt(command,
        TerminalVerdict(RouteStatus(route, result).value), RouteStatus(route, result).value, true,
        old(completion).value)]
      ensures normal && !sealed ==> sent == Some(Response(500, CompletionFailed))
      ensures normal && !sealed ==> journal.receipts == old(journal.receipts)
    {
      match route {
        case Missing =>
          SendJson(404, Answer, sealed);
        case Direct(status) =>
          served := true;
          if result != Succeeds {
            return false;
          }
          SendJson(status, Answer, sealed);
        case Guarded(status) =>
          served := true;
          if result == RaisesOther {
            return false;
          }
          SendJson(if result == Succeeds then status else 400, Answer, sealed);
      }
      normal := true;
    }
  }
}
