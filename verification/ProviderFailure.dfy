/** Recognising a provider failure anywhere on the chain of an exception, which
    may be cyclic. */
module ProviderFailure {
  import opened Strings

  datatype Kind = ProviderError | BudgetExceeded | OtherError

  /** A raised exception and where it came from. */
  class Error {
    const kind: Kind
    const text: string
    var cause: Error?
    var context: Error?
    var source: Error?

    constructor (kind: Kind, text: string)
      ensures this.kind == kind && this.text == text && cause == null && context == null && source == null
    {
      this.kind, this.text := kind, text;
      cause, context, source := null, null, null;
    }

    /** `__cause__`, else `__context__`, else `source`. */
    function Next(): Error?
      reads this
    {
      if cause != null then cause else if context != null then context else source
    }

    predicate Fails() {
      || kind.ProviderError?
      || (kind.BudgetExceeded? && text == "RAG request budget exceeded: provider_retries")
      || exists m :: m in MARKERS && Contains(Fold(text), m)
    }
  }

  const MARKERS := {
    "no_capacity", "service_unavailable", "provider unavailable", "provider timeout",
    "rate limit", "http 429", "http 503"
  }

  predicate Contains(text: string, part: string) {
    exists i :: 0 <= i <= |text| - |part| && StartsAt(text, part, i)
  }

  predicate StartsAt(text: string, part: string, i: nat) {
    i + |part| <= |text| && text[i..i + |part|] == part
  }

  /** Every exception referred to from `errors` is in `errors`. */
  ghost predicate Closed(errors: set<Error>)
    reads errors
  {
    forall e :: e in errors && e.Next() != null ==> e.Next() in errors
  }

  /** The exception `k` steps down the chain, if the chain is that long. */
  ghost function At(e: Error, k: nat, errors: set<Error>): (r: Error?)
    requires e in errors && Closed(errors)
    reads errors
    ensures r != null ==> r in errors
  {
    if k == 0 then e
    else
      var before := At(e, k - 1, errors);
      if before == null then null else before.Next()
  }

  /** Some exception on the chain is a provider failure. */
  ghost predicate ChainFails(e: Error, errors: set<Error>)
    requires e in errors && Closed(errors)
    reads errors
  {
    exists k: nat :: FailsAt(e, k, errors)
  }

  ghost predicate FailsAt(e: Error, k: nat, errors: set<Error>)
    requires e in errors && Closed(errors)
    reads errors
  {
    At(e, k, errors) != null && At(e, k, errors).Fails()
  }

  /** Behind the end of a chain there is nothing. */
  lemma {:induction false} EndsForGood(e: Error, n: nat, k: nat, errors: set<Error>)
    requires e in errors && Closed(errors) && n <= k && At(e, n, errors) == null
    ensures At(e, k, errors) == null
  {
    if n < k {
      EndsForGood(e, n, k - 1, errors);
    }
  }

  /** Once the chain repeats itself, it never leaves what it has visited. */
  lemma {:induction false} Repeats(e: Error, j: nat, n: nat, k: nat, errors: set<Error>) returns (i: nat)
    requires e in errors && Closed(errors) && j < n && At(e, j, errors) == At(e, n, errors)
    ensures i < n && At(e, k, errors) == At(e, i, errors)
  {
    if k < n {
      i := k;
    } else {
      var before := Repeats(e, j, n, k - 1, errors);
      if before + 1 < n {
        i := before + 1;
      } else {
        i := j;
      }
    }
  }

  /** `_is_provider_failure`: it ends on every chain, cyclic or not, and answers
      whether some exception on the chain is a provider failure. */
  method IsProviderFailure(e: Error, ghost errors: set<Error>) returns (failed: bool)
    requires e in errors && Closed(errors)
    ensures failed == ChainFails(e, errors)
  {
    var current: Error? := e;
    var seen: set<Error> := {};
    ghost var n := 0;
    while current != null && current !in seen
      invariant current == At(e, n, errors)
      invariant seen <= errors && (current != null ==> current in errors)
      invariant forall x :: x in seen ==> exists i :: 0 <= i < n && At(e, i, errors) == x
      invariant forall i :: 0 <= i < n ==> !FailsAt(e, i, errors)
      decreases errors - seen
    {
      seen := seen + {current};
      if current.Fails() {
        assert FailsAt(e, n, errors);
        return true;
      }
      assert !FailsAt(e, n, errors);
      n := n + 1;
      assert At(e, n - 1, errors) == current;
      current := current.Next();
    }
    failed := false;
    forall k: nat ensures !FailsAt(e, k, errors) {
      if current == null {
        if n <= k {
          EndsForGood(e, n, k, errors);
        }
      } else {
        var j :| 0 <= j < n && At(e, j, errors) == current;
        var i := Repeats(e, j, n, k, errors);
        assert !FailsAt(e, i, errors);
      }
    }
  }

  // ----- what is recognised

  /** The text says it somewhere, in whatever case. */
  predicate Says(text: string, phrase: string) {
    exists i :: 0 <= i <= |text| - |phrase| && SaysAt(text, phrase, i)
  }

  predicate SaysAt(text: string, phrase: string, i: nat) {
    && i + |phrase| <= |text|
    && forall k :: 0 <= k < |phrase| ==> Folded(text[i + k], phrase[k])
  }

  /** A letter of the text may be the capital of a letter of the phrase. */
  predicate Folded(c: char, p: char) {
    if 'A' <= c <= 'Z' then p == c - 'A' + 'a' else c == p
  }

  /** A provider error, an exhausted retry budget, or a text that says that the
      provider was not available, too slow or too busy. */
  predicate BlamesProvider(kind: Kind, text: string) {
    || kind == ProviderError
    || (kind == BudgetExceeded && text == "RAG request budget exceeded: provider_retries")
    || Says(text, "no_capacity") || Says(text, "service_unavailable") || Says(text, "provider unavailable")
    || Says(text, "provider timeout") || Says(text, "rate limit") || Says(text, "http 429")
    || Says(text, "http 503")
  }

  lemma SaysExactly(text: string, phrase: string)
    ensures Says(text, phrase) <==> Contains(Fold(text), phrase)
  {
    forall i: nat | i + |phrase| <= |text| ensures SaysAt(text, phrase, i) <==> StartsAt(Fold(text), phrase, i) {
      var part := Fold(text)[i..i + |phrase|];
      assert forall k :: 0 <= k < |phrase| ==> part[k] == FoldChar(text[i + k]);
      assert SaysAt(text, phrase, i) ==> forall k :: 0 <= k < |phrase| ==> part[k] == phrase[k];
    }
    forall i | 0 <= i <= |text| - |phrase| && SaysAt(text, phrase, i)
      ensures Contains(Fold(text), phrase)
    {
      assert StartsAt(Fold(text), phrase, i);
    }
    forall i | 0 <= i <= |text| - |phrase| && StartsAt(Fold(text), phrase, i)
      ensures Says(text, phrase)
    {
      assert SaysAt(text, phrase, i);
    }
  }

  lemma FailsExactly(e: Error)
    ensures e.Fails() <==> BlamesProvider(e.kind, e.text)
  {
    hide Says, Contains, Fold;
    forall phrase ensures Says(e.text, phrase) <==> Contains(Fold(e.text), phrase) {
      SaysExactly(e.text, phrase);
    }
  }

  /** What an exception refers to: its cause, else the context it was raised in, else
      the exception it was wrapped around. */
  function Origin(e: Error): Error?
    reads e
  {
    if e.cause == null then (if e.context == null then e.source else e.context) else e.cause
  }

  lemma {:induction false} OneStepOn(e: Error, k: nat, errors: set<Error>)
    requires e in errors && Closed(errors) && Origin(e) != null
    ensures Origin(e) in errors && At(e, k + 1, errors) == At(Origin(e), k, errors)
  {
    assert e.Next() == Origin(e);
    if k > 0 {
      OneStepOn(e, k - 1, errors);
    }
  }

  /** A chain fails exactly if its first exception blames the provider or the chain of
      what that refers to fails. */
  lemma ChainFailsExactly(e: Error, errors: set<Error>)
    requires e in errors && Closed(errors)
    ensures Origin(e) != null ==> Origin(e) in errors
    ensures ChainFails(e, errors) <==>
            BlamesProvider(e.kind, e.text) || (Origin(e) != null && ChainFails(Origin(e), errors))
  {
    hide BlamesProvider;
    FailsExactly(e);
    assert e.Next() == Origin(e) && At(e, 0, errors) == e;
    assert FailsAt(e, 0, errors) <==> BlamesProvider(e.kind, e.text);
    if Origin(e) == null {
      forall k: nat | k > 0 ensures !FailsAt(e, k, errors) {
        EndsForGood(e, 1, k, errors);
      }
    } else {
      forall k: nat ensures FailsAt(e, k + 1, errors) <==> FailsAt(Origin(e), k, errors) {
        OneStepOn(e, k, errors);
      }
      if ChainFails(e, errors) && !FailsAt(e, 0, errors) {
        var k: nat :| FailsAt(e, k, errors);
        assert FailsAt(Origin(e), k - 1, errors);
      }
    }
  }
}
