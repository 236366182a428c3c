/** What gets out of a paid evaluation, in terms of the fields of the request and
    the amounts reserved before it. */
module BudgetMeaning {
  import opened Collections
  import opened CallBudget

  // ----- what the guards let through

  /** A completion by the frozen model, with a bound on its output other than 0, no
      tools and at most 200000 bytes of input and framing. */
  predicate ChatAllowed(r: Request, model: string) {
    && r.client.Httpx? && r.host == "openrouter.ai" && r.method_ == "POST" && r.completionPath
    && r.model == model && r.maxTokens.Some? && r.maxTokens.value != 0 && !r.tools
    && r.size + 2048 <= 200_000
  }

  predicate RerankAllowed(r: Request) {
    r.client.RequestsSession? && r.host == "api.jina.ai" && r.method_ == "POST"
  }

  /** A request to a local host that reads. */
  predicate LocalAllowed(r: Request, local: set<string>) {
    && r.client.Httpx? && r.host in local && !(r.host == "openrouter.ai" && r.method_ == "POST")
    && (r.method_ == "GET" || r.method_ == "HEAD" || r.readPath)
  }

  function ByteCount(n: nat): Option<int> { Some(n) }

  /** Every input byte and every token that may come back; every document with the
      query and 128 bytes on top, and the query once if there are none. */
  predicate Costs(r: Request, model: string, amount: int) {
    || (ChatAllowed(r, model) && amount == 4 * (r.size + 2048) + 18 * r.maxTokens.value)
    || (RerankAllowed(r) &&
        amount == 10 * (r.query * Max(1, |r.documents|) + Sum(FilterMap(ByteCount, r.documents)) +
                        128 * |r.documents|))
  }

  lemma {:induction false} DocumentsCounted(documents: seq<nat>)
    ensures DocumentBound(documents) == Sum(FilterMap(ByteCount, documents)) + 128 * |documents|
  {
    hide FilterMap, Sum;
    if documents == [] {
      FilterMapEmpty(ByteCount);
      NoSum();
    } else {
      var front, last := documents[..|documents| - 1], documents[|documents| - 1];
      assert documents == front + [last];
      DocumentsCounted(front);
      FilterMapLast(ByteCount, front, last);
      SumLast(FilterMap(ByteCount, front), last);
    }
  }

  lemma NoSum()
    ensures Sum([]) == 0
  {
  }

  lemma DecidedExactly(r: Request, model: string, local: set<string>, amount: int)
    ensures Decide(r, model, local) == Paid(amount) <==> Costs(r, model, amount)
    ensures Decide(r, model, local).Free? <==> LocalAllowed(r, local)
  {
    hide FilterMap, Sum, DocumentBound, Max;
    DocumentsCounted(r.documents);
  }

  // ----- what gets out

  /** The call is sent: it is not cut off before it. */
  predicate ReachesSend(fate: Fate) { fate.DiesAfterSend? || fate.DiesRewriting? || fate.SendFails? || fate.Completes? }

  /** The amount fits under 10 USD over all arms and under the arm's own limit. */
  predicate Fits(p: Process, amount: int) {
    Total(p.data) + amount <= 100_000_000 && ArmTotal(p.arm, p.data) + amount <= p.limit
  }

  ghost predicate GetsOut(e: Evaluation, r: Request, fate: Fate, model: string, local: set<string>) {
    && e.ledger.process.Some?
    && (LocalAllowed(r, local) ||
        exists amount :: Costs(r, model, amount) && Fits(e.ledger.process.value, amount) && ReachesSend(fate))
  }

  lemma PaysExactly(s: State, p: Process, amount: int, fate: Fate)
    ensures var after := PayStep(s, p, amount, fate);
            after.sent == if Fits(p, amount) && ReachesSend(fate) then s.sent + [Call(p.arm, amount, None)] else s.sent
  {
    hide Total, ArmTotal;
  }

  /** A request gets out exactly if a run is going on and the request reads from a
      local host, or is one that may be paid for, fits the budget and is not cut
      off. Nothing else changes what got out. */
  lemma GetsOutExactly(e: Evaluation, r: Request, fate: Fate, model: string, local: set<string>)
    ensures var out := AskStep(e, r, fate, model, local).out;
            && (out != e.out <==> GetsOut(e, r, fate, model, local))
            && (out != e.out ==> |out| == |e.out| + 1 && out[..|e.out|] == e.out && out[|e.out|].request == r)
  {
    hide Decide, PayStep, Costs, LocalAllowed, Fits;
    var decision := Decide(r, model, local);
    forall amount ensures decision == Paid(amount) <==> Costs(r, model, amount) {
      DecidedExactly(r, model, local, amount);
    }
    DecidedExactly(r, model, local, 0);
    if e.ledger.process.Some? && decision.Paid? {
      PaysExactly(e.ledger, e.ledger.process.value, decision.amount, fate);
      assert Costs(r, model, decision.amount);
    }
  }

  predicate SentLawfully(o: Sending, model: string, local: set<string>) {
    match o.call
    case Some(call) => Costs(o.request, model, call.amount)
    case None => LocalAllowed(o.request, local)
  }

  lemma AskLawful(e: Evaluation, r: Request, fate: Fate, model: string, local: set<string>)
    requires forall o :: o in e.out ==> SentLawfully(o, model, local)
    ensures forall o :: o in AskStep(e, r, fate, model, local).out ==> SentLawfully(o, model, local)
  {
    hide Decide, PayStep, Costs, LocalAllowed, Fits;
    var decision := Decide(r, model, local);
    DecidedExactly(r, model, local, if decision.Paid? then decision.amount else 0);
    if e.ledger.process.Some? && decision.Paid? {
      PaysExactly(e.ledger, e.ledger.process.value, decision.amount, fate);
    }
  }

  /** Over every evaluation, whatever is asked and however its runs crash: what got
      out was a completion of the frozen model, a rerank, each reserved for its
      bytes and tokens, or read from a local host. */
  lemma {:induction false} EverySendingLawful(moments: seq<Moment>, model: string, local: set<string>)
    ensures forall o :: o in Evaluate(moments, model, local).out ==> SentLawfully(o, model, local)
  {
    hide AskStep, SentLawfully, Step;
    if moments != [] {
      var front, last := moments[..|moments| - 1], moments[|moments| - 1];
      EverySendingLawful(front, model, local);
      if last.Ask? {
        AskLawful(Evaluate(front, model, local), last.request, last.fate, model, local);
      }
    }
  }
}
