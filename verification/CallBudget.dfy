/** The budget of the paired evaluation: every paid call is reserved in a file
    before it is sent. Amounts are in units of 0.0000001 USD. */
module CallBudget {
  import opened Collections

  const CAP := 100_000_000   // 10 USD over all arms
  const INPUT_RATE := 4
  const OUTPUT_RATE := 18
  const RERANK_RATE := 10
  const FRAMING := 2048
  const MAX_INPUT := 200_000

  // ----- which calls are paid

  datatype Client = Httpx | RequestsSession

  /** An outgoing request, as far as the guards look at it. */
  datatype Request = Request(
    client: Client,
    host: string,
    method_: string,
    completionPath: bool,            // the path ends with /chat/completions
    readPath: bool,                  // the path names a scroll, query, search or count
    model: string,
    maxTokens: Option<int>,
    tools: bool,
    size: nat,
    query: nat,                      // bytes of the rerank query
    documents: seq<nat>)             // bytes of each document

  datatype Decision = Refused | Free | Paid(amount: int)

  const CHAT_HOST := "openrouter.ai"
  const RERANK_HOST := "api.jina.ai"

  predicate IsPaidHost(r: Request) { r.host == CHAT_HOST || r.host == RERANK_HOST }

  function DocumentBound(documents: seq<nat>): nat {
    if documents == [] then 0
    else DocumentBound(documents[..|documents| - 1]) + documents[|documents| - 1] + 128
  }

  function ChatAmount(r: Request, maximum: int): int {
    (r.size + FRAMING) * INPUT_RATE + maximum * OUTPUT_RATE
  }

  function RerankAmount(r: Request): int {
    (r.query * Max(1, |r.documents|) + DocumentBound(r.documents)) * RERANK_RATE
  }

  /** `guarded` and `guarded_requests`; `local` are the hosts that cost nothing. */
  function Decide(r: Request, model: string, local: set<string>): Decision {
    if r.client.RequestsSession? then
      if r.host != RERANK_HOST || r.method_ != "POST" then Refused else Paid(RerankAmount(r))
    else if r.host == CHAT_HOST && r.method_ == "POST" then
      if r.model != model || !r.completionPath then Refused
      else if r.maxTokens.None? || r.maxTokens.value == 0 || r.tools then Refused
      else if r.size + FRAMING > MAX_INPUT then Refused
      else Paid(ChatAmount(r, r.maxTokens.value))
    else if r.host !in local then Refused
    else if r.method_ !in {"GET", "HEAD"} && !r.readPath then Refused
    else Free
  }

  // ----- the ledger

  datatype Call = Call(arm: string, amount: int, status: Option<int>)

  /** The budget file; a crash while it is written leaves it unreadable. */
  datatype File = Absent | Corrupt | Holds(calls: seq<Call>)

  datatype Process = Process(arm: string, limit: int, data: seq<Call>)

  /** The file, the process running if any, what has been sent for money, and
      what the file last held whole. */
  datatype State = State(file: File, process: Option<Process>, sent: seq<Call>, written: seq<Call>)

  const FRESH := State(Absent, None, [], [])

  function AmountOf(c: Call): Option<int> { Some(c.amount) }

  function Total(calls: seq<Call>): int { Sum(FilterMap(AmountOf, calls)) }

  function ArmAmount(arm: string): Call -> Option<int> {
    (c: Call) => if c.arm == arm then Some(c.amount) else None
  }

  function ArmTotal(arm: string, calls: seq<Call>): int { Sum(FilterMap(ArmAmount(arm), calls)) }

  predicate Affordable(p: Process, amount: int) {
    Total(p.data) + amount <= CAP && ArmTotal(p.arm, p.data) + amount <= p.limit
  }

  /** How far one paid call gets. */
  datatype Fate =
    | DiesBeforeWrite | DiesWriting | DiesBeforeSend | DiesAfterSend | DiesRewriting
    | SendFails | Completes(status: int)

  datatype Event = Start(arm: string, limit: int) | Pay(amount: int, fate: Fate) | Stop

  /** `Budget.__init__`: an unreadable file stops the run before it begins. */
  function Load(file: File): Option<seq<Call>> {
    match file
    case Absent => Some([])
    case Corrupt => None
    case Holds(calls) => Some(calls)
  }

  function WithStatus(calls: seq<Call>, status: int): seq<Call>
    requires calls != []
  {
    calls[..|calls| - 1] + [calls[|calls| - 1].(status := Some(status))]
  }

  /** Reserve, write, send, record, write again. */
  function PayStep(s: State, p: Process, amount: int, fate: Fate): State {
    if !Affordable(p, amount) then s
    else
      var call := Call(p.arm, amount, None);
      var data := p.data + [call];
      match fate
      case DiesBeforeWrite => s.(process := None)
      case DiesWriting => s.(process := None, file := Corrupt)
      case DiesBeforeSend => State(Holds(data), None, s.sent, data)
      case SendFails => State(Holds(data), Some(p.(data := data)), s.sent + [call], data)
      case DiesAfterSend => State(Holds(data), None, s.sent + [call], data)
      case DiesRewriting => State(Corrupt, None, s.sent + [call], data)
      case Completes(status) =>
        var done := WithStatus(data, status);
        State(Holds(done), Some(p.(data := done)), s.sent + [call], done)
  }

  function Step(s: State, event: Event): State {
    match event
    case Start(arm, limit) =>
      if s.process.Some? || Load(s.file).None? then s
      else s.(process := Some(Process(arm, limit, Load(s.file).value)))
    case Pay(amount, fate) => if s.process.None? then s else PayStep(s, s.process.value, amount, fate)
    case Stop => s.(process := None)
  }

  function Run(s: State, events: seq<Event>): State {
    if events == [] then s else Step(Run(s, events[..|events| - 1]), events[|events| - 1])
  }

  // ----- the source's object

  class Disk {
    var file: File
    constructor (content: File)
      ensures file == content
    {
      file := content;
    }
  }

  class Budget {
    const arm: string
    const limit: int
    const disk: Disk
    var data: seq<Call>

    function Snapshot(): Process
      reads this
    {
      Process(arm, limit, data)
    }

    constructor (disk: Disk, arm: string, limit: int)
      requires Load(disk.file).Some?
      ensures this.disk == disk && Snapshot() == Process(arm, limit, Load(disk.file).value)
    {
      this.disk, this.arm, this.limit := disk, arm, limit;
      data := Load(disk.file).value;
    }

    method Totals() returns (total: int, armTotal: int)
      ensures total == Total(data) && armTotal == ArmTotal(arm, data)
    {
      total, armTotal := 0, 0;
      for i := 0 to |data|
        invariant total == Total(data[..i]) && armTotal == ArmTotal(arm, data[..i])
      {
        assert data[..i + 1] == data[..i] + [data[i]];
        FilterMapLast(AmountOf, data[..i], data[i]);
        FilterMapLast(ArmAmount(arm), data[..i], data[i]);
        SumLast(FilterMap(AmountOf, data[..i]), data[i].amount);
        SumLast(FilterMap(ArmAmount(arm), data[..i]), data[i].amount);
        assert FilterMap(ArmAmount(arm), data[..i]) + [] == FilterMap(ArmAmount(arm), data[..i]);
        total := total + data[i].amount;
        if data[i].arm == arm {
          armTotal := armTotal + data[i].amount;
        }
      }
      assert data[..|data|] == data;
    }

    /** Appends the reservation and writes the file, or refuses and changes nothing. */
    method Reserve(amount: int) returns (ok: bool)
      modifies this, disk
      ensures ok == Affordable(old(Snapshot()), amount)
      ensures data == if ok then old(data) + [Call(arm, amount, None)] else old(data)
      ensures disk.file == if ok then Holds(data) else old(disk.file)
    {
      var total, armTotal := Totals();
      ok := total + amount <= CAP && armTotal + amount <= limit;
      if ok {
        data := data + [Call(arm, amount, None)];
        disk.file := Holds(data);
      }
    }

    /** One guarded paid call; `answer` is what sending it returns, if it returns. */
    method Send(amount: int, answer: Option<int>) returns (sent: Option<Call>)
      modifies this, disk
      ensures sent.Some? == Affordable(old(Snapshot()), amount)
      ensures var fate := if answer.Some? then Completes(answer.value) else SendFails;
              forall earlier ::
                State(disk.file, Some(Snapshot()), if sent.Some? then earlier + [sent.value] else earlier, data) ==
                PayStep(State(old(disk.file), Some(old(Snapshot())), earlier, old(data)), old(Snapshot()), amount, fate)
    {
      var ok := Reserve(amount);
      if !ok {
        return None;
      }
      sent := Some(data[|data| - 1]);
      if answer.Some? {
        data := WithStatus(data, answer.value);
        disk.file := Holds(data);
      }
    }
  }

  // ----- what every sequence of runs keeps

  lemma TotalLast(calls: seq<Call>, c: Call)
    ensures Total(calls + [c]) == Total(calls) + c.amount
    ensures ArmTotal(c.arm, calls + [c]) == ArmTotal(c.arm, calls) + c.amount
  {
    FilterMapLast(AmountOf, calls, c);
    SumLast(FilterMap(AmountOf, calls), c.amount);
    FilterMapLast(ArmAmount(c.arm), calls, c);
    SumLast(FilterMap(ArmAmount(c.arm), calls), c.amount);
  }

  lemma StatusKeepsTotal(calls: seq<Call>, status: int)
    requires calls != []
    ensures Total(WithStatus(calls, status)) == Total(calls)
    ensures Reservations(WithStatus(calls, status)) == Reservations(calls)
  {
    var front, last := calls[..|calls| - 1], calls[|calls| - 1];
    assert calls == front + [last];
    TotalLast(front, last);
    TotalLast(front, last.(status := Some(status)));
    FilterMapLast(Reservation, front, last);
    FilterMapLast(Reservation, front, last.(status := Some(status)));
  }

  /** A call as it was reserved. */
  function Reservation(c: Call): Option<Call> { Some(c.(status := None)) }

  function Reservations(calls: seq<Call>): seq<Call> { FilterMap(Reservation, calls) }

  /** Everything sent was reserved, and the reservations are within the cap. */
  ghost predicate Covered(sent: seq<Call>, calls: seq<Call>) {
    multiset(Reservations(sent)) <= multiset(Reservations(calls)) && Total(calls) <= CAP
  }

  /** What the file holds, or last held, covers what was sent. */
  ghost predicate Kept(s: State) {
    && Covered(s.sent, s.written)
    && (if s.file.Corrupt? then s.process.None? else Load(s.file) == Some(s.written))
    && (s.process.Some? ==> s.process.value.data == s.written)
  }

  lemma CoveredMore(sent: seq<Call>, calls: seq<Call>, c: Call)
    requires Covered(sent, calls) && Total(calls) + c.amount <= CAP
    ensures Covered(sent, calls + [c]) && Covered(sent + [c], calls + [c])
  {
    TotalLast(calls, c);
    FilterMapLast(Reservation, calls, c);
    FilterMapLast(Reservation, sent, c);
  }

  lemma CoveredStatus(sent: seq<Call>, calls: seq<Call>, status: int)
    requires Covered(sent, calls) && calls != []
    ensures Covered(sent, WithStatus(calls, status))
  {
    StatusKeepsTotal(calls, status);
  }

  lemma PayKeeps(s: State, p: Process, amount: int, fate: Fate)
    requires Kept(s) && s.process == Some(p)
    ensures Kept(PayStep(s, p, amount, fate))
  {
    hide Covered, WithStatus;
    if Affordable(p, amount) {
      var call := Call(p.arm, amount, None);
      CoveredMore(s.sent, p.data, call);
      if fate.Completes? {
        CoveredStatus(s.sent + [call], p.data + [call], fate.status);
      }
    }
  }

  lemma {:induction false} EveryRunKeeps(events: seq<Event>)
    ensures Kept(Run(FRESH, events))
  {
    hide Covered, PayStep;
    if events == [] {
      NothingSent();
    } else {
      var front, last := events[..|events| - 1], events[|events| - 1];
      EveryRunKeeps(front);
      var s := Run(FRESH, front);
      if last.Pay? && s.process.Some? {
        PayKeeps(s, s.process.value, last.amount, last.fate);
      }
    }
  }

  lemma NothingSent()
    ensures Covered([], [])
  {
  }

  /** Over any sequence of arm runs, however they crash: no paid call was sent
      without its own reservation, and the reservations, in the file or last held
      by it before it became unreadable, are within the cap. */
  lemma NoUnreservedCall(events: seq<Event>)
    ensures var s := Run(FRESH, events);
            Covered(s.sent, s.written) && (!s.file.Corrupt? ==> Load(s.file) == Some(s.written))
  {
    EveryRunKeeps(events);
  }

  /** No run of the arm was started with a limit above `most`. */
  predicate StartsWithin(events: seq<Event>, arm: string, most: int) {
    forall e :: e in events && e.Start? && e.arm == arm ==> e.limit <= most
  }

  predicate ArmKept(s: State, arm: string, most: int) {
    && ArmTotal(arm, s.written) <= most
    && (s.process.Some? && s.process.value.arm == arm ==> s.process.value.limit <= most)
  }

  lemma ArmTotalLast(arm: string, calls: seq<Call>, c: Call)
    ensures ArmTotal(arm, calls + [c]) == ArmTotal(arm, calls) + if c.arm == arm then c.amount else 0
  {
    hide FilterMap, Sum;
    var amounts := FilterMap(ArmAmount(arm), calls);
    FilterMapLast(ArmAmount(arm), calls, c);
    SumLast(amounts, c.amount);
    assert amounts + [] == amounts;
  }

  lemma StatusKeepsArm(arm: string, calls: seq<Call>, status: int)
    requires calls != []
    ensures ArmTotal(arm, WithStatus(calls, status)) == ArmTotal(arm, calls)
  {
    var front, last := calls[..|calls| - 1], calls[|calls| - 1];
    assert calls == front + [last];
    ArmTotalLast(arm, front, last);
    ArmTotalLast(arm, front, last.(status := Some(status)));
  }

  lemma PayKeepsArm(s: State, p: Process, amount: int, fate: Fate, arm: string, most: int)
    requires Kept(s) && s.process == Some(p) && ArmKept(s, arm, most)
    ensures ArmKept(PayStep(s, p, amount, fate), arm, most)
  {
    hide Covered, WithStatus, ArmTotal;
    if Affordable(p, amount) {
      var call := Call(p.arm, amount, None);
      ArmTotalLast(arm, p.data, call);
      if fate.Completes? {
        StatusKeepsArm(arm, p.data + [call], fate.status);
      }
    }
  }

  lemma {:induction false} ArmLimitKept(events: seq<Event>, arm: string, most: nat)
    requires StartsWithin(events, arm, most)
    ensures ArmKept(Run(FRESH, events), arm, most)
  {
    hide Covered, PayStep, ArmTotal;
    if events == [] {
      NothingReserved(arm);
    } else {
      var front, last := events[..|events| - 1], events[|events| - 1];
      assert forall e :: e in front ==> e in events;
      ArmLimitKept(front, arm, most);
      EveryRunKeeps(front);
      var s := Run(FRESH, front);
      if last.Pay? && s.process.Some? {
        PayKeepsArm(s, s.process.value, last.amount, last.fate, arm, most);
      }
    }
  }

  lemma NothingReserved(arm: string)
    ensures ArmTotal(arm, []) == 0 && Total([]) == 0
  {
  }

  /** Over any sequence of runs of any arms, however they crash: what an arm has
      reserved, in the file and in the running process, sent or not, never exceeds
      the largest limit its runs were started with. */
  lemma ArmWithinLimit(events: seq<Event>, arm: string, most: nat)
    requires StartsWithin(events, arm, most)
    ensures var s := Run(FRESH, events);
            && ArmTotal(arm, s.written) <= most
            && (!s.file.Corrupt? ==> ArmTotal(arm, Load(s.file).value) <= most)
            && (s.process.Some? ==> ArmTotal(arm, s.process.value.data) <= most)
  {
    hide Covered, PayStep, ArmTotal;
    ArmLimitKept(events, arm, most);
    EveryRunKeeps(events);
  }

  /** Nothing is sent any more once the file is unreadable. */
  lemma {:induction false} CorruptFileStopsEverything(s: State, events: seq<Event>)
    requires s.file.Corrupt? && s.process.None?
    ensures Run(s, events) == s
  {
    if events != [] {
      CorruptFileStopsEverything(s, events[..|events| - 1]);
    }
  }

  // ----- when the amounts sent are within the cap, too

  predicate NoCredit(events: seq<Event>) {
    forall e :: e in events && e.Pay? ==> e.amount >= 0
  }

  predicate Spent(s: State, arm: string) {
    Total(s.sent) <= Total(s.written) && ArmTotal(arm, s.sent) <= ArmTotal(arm, s.written)
  }

  lemma PayKeepsSpent(s: State, p: Process, amount: nat, fate: Fate, arm: string)
    requires Kept(s) && s.process == Some(p) && Spent(s, arm)
    ensures Spent(PayStep(s, p, amount, fate), arm)
  {
    hide Covered, WithStatus, Total, ArmTotal;
    var call := Call(p.arm, amount, None);
    TotalLast(p.data, call);
    TotalLast(s.sent, call);
    ArmTotalLast(arm, p.data, call);
    ArmTotalLast(arm, s.sent, call);
    if fate.Completes? {
      StatusKeepsTotal(p.data + [call], fate.status);
      StatusKeepsArm(arm, p.data + [call], fate.status);
    }
  }

  lemma {:induction false} SpentKept(events: seq<Event>, arm: string)
    requires NoCredit(events)
    ensures Spent(Run(FRESH, events), arm)
  {
    hide Covered, PayStep, Total, ArmTotal;
    if events != [] {
      var front, last := events[..|events| - 1], events[|events| - 1];
      assert forall e :: e in front ==> e in events;
      SpentKept(front, arm);
      EveryRunKeeps(front);
      var s := Run(FRESH, front);
      if last.Pay? && s.process.Some? {
        PayKeepsSpent(s, s.process.value, last.amount, last.fate, arm);
      }
    }
  }

  /** Without negative reservations the amounts sent are within the cap and, arm
      by arm, within the largest limit of its runs. */
  lemma SentWithinCap(events: seq<Event>, arm: string, most: nat)
    requires NoCredit(events) && StartsWithin(events, arm, most)
    ensures Total(Run(FRESH, events).sent) <= CAP && ArmTotal(arm, Run(FRESH, events).sent) <= most
  {
    hide Run, ArmTotal;
    EveryRunKeeps(events);
    SpentKept(events, arm);
    ArmWithinLimit(events, arm, most);
  }

  // ----- what the guards let through

  /** A request to a paid host is sent only as a reserved call, if and only if
      `local` holds neither paid host. */
  lemma PaidHostsNeverFree(model: string, local: set<string>)
    ensures (forall r :: IsPaidHost(r) ==> !Decide(r, model, local).Free?) <==>
            CHAT_HOST !in local && RERANK_HOST !in local
  {
    var probe := Request(Httpx, CHAT_HOST, "GET", false, false, "", None, false, 0, 0, []);
    assert CHAT_HOST in local ==> IsPaidHost(probe) && Decide(probe, model, local).Free?;
    var other := probe.(host := RERANK_HOST);
    assert RERANK_HOST in local ==> IsPaidHost(other) && Decide(other, model, local).Free?;
  }

  /** The reserved amount bounds input and output unless the request asks for a
      negative number of output tokens: exactly then it can be below the bound
      on the input alone. */
  lemma AmountBoundsInput(r: Request, model: string, local: set<string>)
    requires r.client.Httpx? && Decide(r, model, local).Paid?
    ensures r.maxTokens.Some?
    ensures Decide(r, model, local).amount >= (r.size + FRAMING) * INPUT_RATE <==> r.maxTokens.value > 0
  {
  }

  // ----- guards and ledger together

  datatype Moment = Begin(arm: string, limit: int) | Ask(request: Request, fate: Fate) | End

  /** A request that got out, with the reservation it got out under. */
  datatype Sending = Sending(request: Request, call: Option<Call>)

  datatype Evaluation = Evaluation(ledger: State, out: seq<Sending>)

  const UNSTARTED := Evaluation(FRESH, [])

  function AskStep(e: Evaluation, r: Request, fate: Fate, model: string, local: set<string>): Evaluation {
    if e.ledger.process.None? then e
    else
      match Decide(r, model, local)
      case Refused => e
      case Free => e.(out := e.out + [Sending(r, None)])
      case Paid(amount) =>
        var after := PayStep(e.ledger, e.ledger.process.value, amount, fate);
        Evaluation(after,
          if after.sent == e.ledger.sent then e.out
          else e.out + [Sending(r, Some(after.sent[|after.sent| - 1]))])
  }

  function MomentStep(e: Evaluation, m: Moment, model: string, local: set<string>): Evaluation {
    match m
    case Begin(arm, limit) => e.(ledger := Step(e.ledger, Start(arm, limit)))
    case Ask(r, fate) => AskStep(e, r, fate, model, local)
    case End => e.(ledger := Step(e.ledger, Stop))
  }

  function Evaluate(moments: seq<Moment>, model: string, local: set<string>): Evaluation {
    if moments == [] then UNSTARTED
    else MomentStep(Evaluate(moments[..|moments| - 1], model, local), moments[|moments| - 1], model, local)
  }

  /** What a moment is to the ledger. */
  function EventOf(model: string, local: set<string>): Moment -> Option<Event> {
    (m: Moment) =>
      match m
      case Begin(arm, limit) => Some(Start(arm, limit))
      case End => Some(Stop)
      case Ask(r, fate) =>
        match Decide(r, model, local)
        case Paid(amount) => Some(Pay(amount, fate))
        case _ => None
  }

  function Events(moments: seq<Moment>, model: string, local: set<string>): seq<Event> {
    FilterMap(EventOf(model, local), moments)
  }

  lemma RunNothing()
    ensures Run(FRESH, []) == FRESH
  {
  }

  lemma RunLast(s: State, events: seq<Event>, e: Event)
    ensures Run(s, events + [e]) == Step(Run(s, events), e)
  {
    assert (events + [e])[..|events|] == events;
  }

  lemma {:induction false} EvaluationRunsLedger(moments: seq<Moment>, model: string, local: set<string>)
    ensures Evaluate(moments, model, local).ledger == Run(FRESH, Events(moments, model, local))
  {
    hide PayStep, Run;
    if moments == [] {
      FilterMapEmpty(EventOf(model, local));
      RunNothing();
    } else {
      var front, last := moments[..|moments| - 1], moments[|moments| - 1];
      assert moments == front + [last];
      EvaluationRunsLedger(front, model, local);
      FilterMapLast(EventOf(model, local), front, last);
      var event := EventOf(model, local)(last);
      if event.Some? {
        RunLast(FRESH, Events(front, model, local), event.value);
      } else {
        assert Events(moments, model, local) == Events(front, model, local);
      }
    }
  }

  function CallOf(o: Sending): Option<Call> { o.call }

  /** A request got out with a reservation exactly if it went to a paid host, and
      the reservation is for the amount decided. */
  predicate ReservedFor(o: Sending, model: string, local: set<string>) {
    var decision := Decide(o.request, model, local);
    && (IsPaidHost(o.request) <==> o.call.Some?)
    && !decision.Refused?
    && (o.call.Some? ==> decision == Paid(o.call.value.amount))
  }

  ghost predicate AllReserved(e: Evaluation, model: string, local: set<string>) {
    && (forall o :: o in e.out ==> ReservedFor(o, model, local))
    && FilterMap(CallOf, e.out) == e.ledger.sent
  }

  lemma PaidOrLocal(r: Request, model: string, local: set<string>)
    requires CHAT_HOST !in local && RERANK_HOST !in local
    ensures Decide(r, model, local).Paid? ==> IsPaidHost(r)
    ensures Decide(r, model, local).Free? ==> !IsPaidHost(r)
  {
  }

  /** One paid call adds its own reservation to what was sent, or nothing. */
  lemma PaySends(s: State, p: Process, amount: int, fate: Fate)
    ensures var after := PayStep(s, p, amount, fate);
            after.sent == s.sent || after.sent == s.sent + [Call(p.arm, amount, None)]
  {
  }

  lemma AskReserves(e: Evaluation, r: Request, fate: Fate, model: string, local: set<string>)
    requires CHAT_HOST !in local && RERANK_HOST !in local && AllReserved(e, model, local)
    ensures AllReserved(AskStep(e, r, fate, model, local), model, local)
  {
    hide PayStep, Decide, IsPaidHost;
    PaidOrLocal(r, model, local);
    var decision := Decide(r, model, local);
    if e.ledger.process.Some? && !decision.Refused? {
      if decision.Paid? {
        PaySends(e.ledger, e.ledger.process.value, decision.amount, fate);
        var call := Call(e.ledger.process.value.arm, decision.amount, None);
        assert ReservedFor(Sending(r, Some(call)), model, local);
        FilterMapLast(CallOf, e.out, Sending(r, Some(call)));
      } else {
        assert ReservedFor(Sending(r, None), model, local);
        FilterMapLast(CallOf, e.out, Sending(r, None));
        assert e.ledger.sent + [] == e.ledger.sent;
      }
    }
  }

  /** Over every evaluation, whatever is asked and however its runs crash: the
      requests that went to a paid host are exactly those that were sent as
      reserved calls, in order, each for its own amount, and the reservations
      cover them within the cap. */
  lemma {:induction false} PaidRequestsReserved(moments: seq<Moment>, model: string, local: set<string>)
    requires CHAT_HOST !in local && RERANK_HOST !in local
    ensures var e := Evaluate(moments, model, local);
            AllReserved(e, model, local) && Covered(e.ledger.sent, e.ledger.written)
  {
    hide Covered, Decide, PayStep, AskStep, Events, IsPaidHost;
    EvaluationRunsLedger(moments, model, local);
    EveryRunKeeps(Events(moments, model, local));
    if moments == [] {
      FilterMapEmpty(CallOf);
    } else {
      var front, last := moments[..|moments| - 1], moments[|moments| - 1];
      PaidRequestsReserved(front, model, local);
      if last.Ask? {
        AskReserves(Evaluate(front, model, local), last.request, last.fate, model, local);
      }
    }
  }

  // ----- requests that are reserved below nothing

  /** The request would be reserved with a negative amount. */
  predicate Credits(r: Request, model: string, local: set<string>) {
    Decide(r, model, local).Paid? && Decide(r, model, local).amount < 0
  }

  lemma {:induction false} EventsOfMember(moments: seq<Moment>, model: string, local: set<string>, e: Event)
    requires e in Events(moments, model, local)
    ensures exists m :: m in moments && EventOf(model, local)(m) == Some(e)
  {
    FilterMapMember(EventOf(model, local), moments, e);
  }

  /** Nothing but `r` is asked with a negative reservation. */
  predicate OnlyCredit(moments: seq<Moment>, r: Request, model: string, local: set<string>) {
    forall m :: m in moments && m.Ask? ==> m.request == r || !Credits(m.request, model, local)
  }

  function SentIn(moments: seq<Moment>, model: string, local: set<string>): seq<Call> {
    Evaluate(moments, model, local).ledger.sent
  }

  /** Some evaluation in which only `r` can be reserved with a negative amount
      sends for more than the cap. */
  ghost predicate CanOverspend(r: Request, model: string, local: set<string>) {
    exists moments :: OnlyCredit(moments, r, model, local) && Total(SentIn(moments, model, local)) > CAP
  }

  /** ... and for more than any limit an arm was started with. */
  ghost predicate CanPassLimit(r: Request, model: string, local: set<string>) {
    exists moments, arm, most: nat ::
      && OnlyCredit(moments, r, model, local) && StartsWithin(Events(moments, model, local), arm, most)
      && ArmTotal(arm, SentIn(moments, model, local)) > most
  }

  lemma WithoutCredit(moments: seq<Moment>, r: Request, model: string, local: set<string>)
    requires !Credits(r, model, local) && OnlyCredit(moments, r, model, local)
    ensures NoCredit(Events(moments, model, local))
    ensures SentIn(moments, model, local) == Run(FRESH, Events(moments, model, local)).sent
  {
    hide Evaluate, Decide, Run;
    var events := Events(moments, model, local);
    forall e | e in events && e.Pay? ensures e.amount >= 0 {
      EventsOfMember(moments, model, local, e);
    }
    EvaluationRunsLedger(moments, model, local);
  }

  const OVER := CAP + 2

  /** A chat request for two units more than the cap. */
  function CostlyRequest(model: string): Request {
    Request(Httpx, CHAT_HOST, "POST", true, false, model, Some(5_554_877), false, 1006, 0, [])
  }

  lemma CostlyAmount(model: string, local: set<string>)
    ensures Decide(CostlyRequest(model), model, local) == Paid(OVER)
  {
  }

  /** Documents and queries have no negative size. */
  lemma RerankNonNegative(r: Request)
    ensures RerankAmount(r) >= 0
  {
    hide DocumentBound;
    var sizes := r.query * Max(1, |r.documents|);
    assert sizes >= 0;
  }

  lemma ChatAmountEven(r: Request, maximum: int)
    requires ChatAmount(r, maximum) < 0
    ensures ChatAmount(r, maximum) <= -2
  {
    assert ChatAmount(r, maximum) == 2 * ((r.size + FRAMING) * 2 + maximum * 9);
  }

  /** Only a chat request can have a negative amount, and amounts are even. */
  lemma CreditOfTwo(r: Request, model: string, local: set<string>)
    requires Credits(r, model, local)
    ensures Decide(r, model, local).amount <= -2
  {
    hide ChatAmount, RerankAmount;
    RerankNonNegative(r);
    if r.maxTokens.Some? && ChatAmount(r, r.maxTokens.value) < 0 {
      ChatAmountEven(r, r.maxTokens.value);
    }
  }

  /** A run dies after it wrote a credit, and the next one spends it on top of the
      cap and of its arm's limit. */
  function Overspending(credit: int): seq<Event> {
    [Start("", CAP), Pay(credit, DiesBeforeSend)] + [Start("", CAP), Pay(OVER, SendFails)]
  }

  lemma CreditIsSpent(credit: int)
    requires credit <= -2
    ensures Total(Run(FRESH, Overspending(credit)).sent) == OVER
    ensures ArmTotal("", Run(FRESH, Overspending(credit)).sent) == OVER
  {
    hide Total, ArmTotal, Run;
    var first, second := Call("", credit, None), Call("", OVER, None);
    TotalLast([], first);
    TotalLast([first], second);
    TotalLast([], second);
    NothingReserved("");
    var s := State(Holds([first]), None, [], [first]);
    RunNothing();
    RunLast(FRESH, [], Start("", CAP));
    RunLast(FRESH, [Start("", CAP)], Pay(credit, DiesBeforeSend));
    var half := [Start("", CAP), Pay(credit, DiesBeforeSend)];
    assert [] + [Start("", CAP)] == [Start("", CAP)];
    assert [Start("", CAP)] + [Pay(credit, DiesBeforeSend)] == half;
    assert [] + [first] == [first] && [] + [second] == [second];
    assert Run(FRESH, half) == s;
    RunLast(FRESH, half, Start("", CAP));
    RunLast(FRESH, half + [Start("", CAP)], Pay(OVER, SendFails));
    assert half + [Start("", CAP)] + [Pay(OVER, SendFails)] == Overspending(credit);
  }

  lemma CreditOverspends(r: Request, model: string, local: set<string>)
    requires Credits(r, model, local)
    ensures CanOverspend(r, model, local) && CanPassLimit(r, model, local)
  {
    hide Total, ArmTotal, Run, Evaluate, Decide, CostlyRequest;
    var costly := CostlyRequest(model);
    CostlyAmount(model, local);
    CreditOfTwo(r, model, local);
    var credit := Decide(r, model, local).amount;
    var moments := [Begin("", CAP), Ask(r, DiesBeforeSend)] + [Begin("", CAP), Ask(costly, SendFails)];
    var f := EventOf(model, local);
    FilterMapOfTwo(f, Begin("", CAP), Ask(r, DiesBeforeSend));
    FilterMapOfTwo(f, Begin("", CAP), Ask(costly, SendFails));
    FilterMapConcat(f, [Begin("", CAP), Ask(r, DiesBeforeSend)], [Begin("", CAP), Ask(costly, SendFails)]);
    assert Events(moments, model, local) == Overspending(credit);
    EvaluationRunsLedger(moments, model, local);
    CreditIsSpent(credit);
    assert OnlyCredit(moments, r, model, local);
    assert StartsWithin(Events(moments, model, local), "", CAP);
  }

  /** One request can make the amounts sent exceed the cap, and an arm's limit, all
      other reservations being non-negative, if and only if its own reservation is
      negative: it is written, the run dies before the call, and the credit stays. */
  lemma OverspendsExactly(r: Request, model: string, local: set<string>)
    ensures CanOverspend(r, model, local) <==> Credits(r, model, local)
    ensures CanPassLimit(r, model, local) <==> Credits(r, model, local)
  {
    hide Total, ArmTotal, SentIn, Decide, Run, Credits, Events;
    if Credits(r, model, local) {
      CreditOverspends(r, model, local);
    } else {
      forall moments | OnlyCredit(moments, r, model, local) ensures Total(SentIn(moments, model, local)) <= CAP {
        WithoutCredit(moments, r, model, local);
        SpentKept(Events(moments, model, local), "");
        EveryRunKeeps(Events(moments, model, local));
      }
      forall moments, arm, most: nat |
        OnlyCredit(moments, r, model, local) && StartsWithin(Events(moments, model, local), arm, most)
        ensures ArmTotal(arm, SentIn(moments, model, local)) <= most
      {
        WithoutCredit(moments, r, model, local);
        SentWithinCap(Events(moments, model, local), arm, most);
      }
    }
  }
}
