/** The POST protocol said of the fields of a request: who is called, what is denied and why, what is recorded and
    answered, in every interleaving and for the handler alone. */
module ProtocolLaws {
  import opened Numbers
  import opened PostProtocol

  // ---- the checks of one request ----

  ghost predicate AllChecksPass(q: Request) {
    q.auditOperational && q.hostOk && q.tokenOk && q.roleOk && q.licensed && q.bodyError.None?
  }

  /** The first failed check of a request that reaches the checks, with what its denial records. */
  ghost predicate DeniedFor(q: Request, reason: Denial, status: int, authenticated: bool, digest: string) {
    match reason
    case DeniedHost => !q.hostOk && status == 421 && !authenticated && IsEmptyDigest(digest)
    case DeniedSession => q.hostOk && !q.tokenOk && status == 403 && !authenticated && IsEmptyDigest(digest)
    case DeniedRole => q.hostOk && q.tokenOk && !q.roleOk && status == 403 && authenticated && IsEmptyDigest(digest)
    case DeniedLicense =>
      && q.hostOk && q.tokenOk && q.roleOk && !q.licensed
      && status == 403 && authenticated && IsEmptyDigest(digest)
    case DeniedInput =>
      && q.hostOk && q.tokenOk && q.roleOk && q.licensed
      && q.bodyError == Some(status) && authenticated && digest == q.bodyDigest
  }

  /** The SHA-256 of no bytes: the body is not read before the checks that precede it. */
  ghost predicate IsEmptyDigest(digest: string) {
    digest == "e3b0c44298fc1c149afbf4c8996fb92427ae41e4649b934ca495991b7852b855"
  }

  ghost predicate DenialOf(id: nat, q: Request, r: Receipt) {
    && r.command == id && r.verdict.Denied? && q.auditOperational
    && DeniedFor(q, r.verdict.reason, r.status, r.authenticated, r.digest)
  }

  ghost predicate AcceptanceOf(id: nat, q: Request, r: Receipt) {
    AllChecksPass(q) && r == Receipt(id, Accepted, 0, true, q.bodyDigest)
  }

  /** The status a route can end with: its own on success, 400 for a validation error it catches, 404 when unknown. */
  ghost predicate CanAnswer(route: Route, status: int) {
    match route
    case Missing => status == 404
    case Direct(ok) => status == ok
    case Guarded(ok) => status == ok || status == 400
  }

  ghost predicate CompletionOf(id: nat, q: Request, r: Receipt) {
    && AllChecksPass(q) && CanAnswer(q.route, r.status)
    && r == Receipt(id, if r.status < 400 then Completed else Failed, r.status, true, q.bodyDigest)
  }

  /** Nothing, one denial, or an acceptance that at most one completion follows. */
  ghost predicate Recorded(id: nat, q: Request, mine: seq<Receipt>) {
    || mine == []
    || (|mine| == 1 && (DenialOf(id, q, mine[0]) || AcceptanceOf(id, q, mine[0])))
    || (|mine| == 2 && AcceptanceOf(id, q, mine[0]) && CompletionOf(id, q, mine[1]))
  }

  /** An answer and the receipts behind it. */
  ghost predicate Answered(id: nat, q: Request, response: Response, mine: seq<Receipt>) {
    match response.body
    case AuditUnavailable => !q.auditOperational && response.status == 503 && mine == []
    case WriteFailed => q.auditOperational && response.status == 503 && mine == []
    case Refused(reason) =>
      && |mine| == 1 && DenialOf(id, q, mine[0])
      && mine[0].verdict.reason == reason && mine[0].status == response.status
    case Answer =>
      && |mine| == 2 && AcceptanceOf(id, q, mine[0]) && CompletionOf(id, q, mine[1])
      && mine[1].status == response.status
    case CompletionFailed => response.status == 500 && |mine| == 1 && AcceptanceOf(id, q, mine[0])
  }

  lemma RefusalIsFirst(q: Request)
    ensures Admitted(q) <==> AllChecksPass(q)
    ensures FirstRefusal(q).Some? ==>
      var r := FirstRefusal(q).value; DeniedFor(q, r.reason, r.status, r.authenticated, r.digest)
  {
  }

  lemma ReceiptedIsRecorded(id: nat, q: Request, pc: Pc, mine: seq<Receipt>)
    requires Receipted(id, q, pc, mine)
    ensures Recorded(id, q, mine)
    ensures pc.Done? ==> Answered(id, q, pc.response, mine)
    ensures pc.Crashed? || pc.Serving? || pc.Sealing? ==> |mine| == 1 && AcceptanceOf(id, q, mine[0])
  {
    RefusalIsFirst(q);
  }

  // ---- every interleaving ----

  /** Whatever the interleaving: a command's receipts are those its request allows, its answer has them behind it,
      and a handler whose service is running, done or crashed has its acceptance in the journal. */
  lemma EveryCommandIsLawful(run: seq<System>, id: nat)
    requires IsRun(run) && id in run[|run| - 1].handlers
    ensures var s := run[|run| - 1];
      var h, mine := s.handlers[id], Mine(s.journal, id);
      && Recorded(id, h.request, mine)
      && (h.pc.Done? ==> Answered(id, h.request, h.pc.response, mine))
      && (h.pc.Crashed? || h.pc.Serving? || h.pc.Sealing? ==> |mine| == 1 && AcceptanceOf(id, h.request, mine[0]))
  {
    RunKeepsOk(run);
    var s := run[|run| - 1];
    assert HandlerOk(s, id);
    ReceiptedIsRecorded(id, s.handlers[id].request, s.handlers[id].pc, Mine(s.journal, id));
  }

  lemma {:induction false} MineHolds(journal: seq<Receipt>, i: nat)
    requires i < |journal|
    ensures journal[i] in Mine(journal, journal[i].command)
  {
    if i < |journal| - 1 { MineHolds(journal[..|journal| - 1], i); }
  }

  lemma {:induction false} MineComesFrom(journal: seq<Receipt>, id: nat)
    ensures forall r | r in Mine(journal, id) :: r in journal && r.command == id
  {
    if journal != [] { MineComesFrom(journal[..|journal| - 1], id); }
  }

  /** Every receipt of every journal belongs to a request that it describes: a denial records the first failed check,
      an acceptance and a completion only requests that passed them all. */
  lemma EveryReceiptIsEarned(run: seq<System>, i: nat)
    requires IsRun(run) && i < |run[|run| - 1].journal|
    ensures var s := run[|run| - 1];
      var r := s.journal[i];
      && r.command in s.handlers
      && var q := s.handlers[r.command].request;
         && (r.verdict.Denied? ==> DenialOf(r.command, q, r))
         && (r.verdict.Accepted? ==> AcceptanceOf(r.command, q, r))
         && (r.verdict.Completed? || r.verdict.Failed? ==> CompletionOf(r.command, q, r))
  {
    var s := run[|run| - 1];
    var r := s.journal[i];
    RunKeepsOk(run);
    MineHolds(s.journal, i);
    assert Mine(s.journal, r.command) != [];
    EveryCommandIsLawful(run, r.command);
  }

  /** A request with a failed check is never accepted, completed or called, in any interleaving. */
  lemma FailedChecksNeverCall(run: seq<System>, id: nat)
    requires IsRun(run) && id in run[|run| - 1].handlers
    requires !AllChecksPass(run[|run| - 1].handlers[id].request)
    ensures var s := run[|run| - 1];
      && (forall i | 0 <= i < |s.journal| && s.journal[i].command == id :: s.journal[i].verdict.Denied?)
      && forall k | 0 <= k < |s.calls| :: s.calls[k].command != id
  {
    var s := run[|run| - 1];
    forall i | 0 <= i < |s.journal| && s.journal[i].command == id ensures s.journal[i].verdict.Denied? {
      EveryReceiptIsEarned(run, i);
    }
    forall k | 0 <= k < |s.calls| ensures s.calls[k].command != id { CallsPassedEveryCheck(run, k); }
  }

  /** A called command had all its checks pass, its own acceptance was durable before the call, and it is called
      once. */
  lemma CallsPassedEveryCheck(run: seq<System>, k: nat)
    requires IsRun(run) && k < |run[|run| - 1].calls|
    ensures var s := run[|run| - 1];
      var c := s.calls[k];
      && c.command in s.handlers && AllChecksPass(s.handlers[c.command].request)
      && s.handlers[c.command].request.route != Missing
      && c.journalLength <= |s.journal|
      && (exists i | 0 <= i < c.journalLength ::
            s.journal[i] == Receipt(c.command, Accepted, 0, true, s.handlers[c.command].request.bodyDigest))
      && forall j | 0 <= j < |s.calls| && s.calls[j].command == c.command :: j == k
  {
    var s := run[|run| - 1];
    var c := s.calls[k];
    CallsFollowAcceptance(run, k);
    RefusalIsFirst(s.handlers[c.command].request);
    var early := s.journal[..c.journalLength];
    var accepted := Receipt(c.command, Accepted, 0, true, s.handlers[c.command].request.bodyDigest);
    MineComesFrom(early, c.command);
    assert accepted in Mine(early, c.command);
    var i :| 0 <= i < |early| && early[i] == accepted;
    assert s.journal[i] == accepted;
    OnlyRoutesAreCalled(run, k);
  }

  /** Unknown paths call nothing. */
  lemma {:induction false} OnlyRoutesAreCalled(run: seq<System>, k: nat)
    requires IsRun(run) && k < |run[|run| - 1].calls|
    ensures var s := run[|run| - 1];
      s.calls[k].command in s.handlers && s.handlers[s.calls[k].command].request.route != Missing
  {
    var n := |run| - 1;
    if n > 0 {
      var init := run[..n];
      forall i | 0 < i < |init| ensures Next(init[i - 1], init[i]) { assert Next(run[i - 1], run[i]); }
      assert Next(run[n - 1], run[n]);
      var e :| Step(run[n - 1], run[n], e);
      if k < |run[n - 1].calls| { OnlyRoutesAreCalled(init, k); }
    }
  }

  // ---- the handler alone ----

  /** What one handler ends with when nobody interferes, by the fields of its request: `first` says whether the denial
      or the acceptance could be recorded, `second` whether the completion could. */
  ghost predicate EndsWith(id: nat, q: Request, first: bool, result: Result, second: bool,
    pc: Pc, receipts: seq<Receipt>, called: bool)
  {
    && Recorded(id, q, receipts)
    && (called <==> AllChecksPass(q) && first && q.route != Missing)
    && (pc.Done? ==> Answered(id, q, pc.response, receipts))
    && (pc.Crashed? <==> AllChecksPass(q) && first && Raises(q.route, result))
    && (pc.Done? <==> !(AllChecksPass(q) && first && Raises(q.route, result)))
    && (!q.auditOperational <==> pc.Done? && pc.response.body == AuditUnavailable)
    && (q.auditOperational && !first <==> pc.Done? && pc.response.body == WriteFailed)
    && (q.auditOperational && !AllChecksPass(q) && first <==> pc.Done? && pc.response.body.Refused?)
    && (AllChecksPass(q) && first && !Raises(q.route, result) && second <==> pc.Done? && pc.response.body == Answer)
    && (pc.Done? && pc.response.body == Answer ==> pc.response.status == AnswerFor(q.route, result))
    && (pc.Crashed? ==> |receipts| == 1 && AcceptanceOf(id, q, receipts[0]))
  }

  /** The service's exception leaves the handler. */
  ghost predicate Raises(route: Route, result: Result) {
    match route
    case Missing => false
    case Direct(_) => result != Succeeds
    case Guarded(_) => result == RaisesOther
  }

  ghost function AnswerFor(route: Route, result: Result): int {
    match route
    case Missing => 404
    case Direct(ok) => ok
    case Guarded(ok) => if result == RaisesValidation then 400 else ok
  }

  /** The outcome that the handler object is proved to reach. */
  lemma OutcomeIsLawful(id: nat, q: Request, first: bool, result: Result, second: bool)
    ensures var (pc, receipts, called) := Outcome(id, q, first, result, second);
      EndsWith(id, q, first, result, second, pc, receipts, called)
  {
    RefusalIsFirst(q);
  }
}
