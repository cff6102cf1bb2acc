/**
  The failover loop of the gateway (internal/gateway/handlers.go, forwardCompatible) over an arbitrary
  sequence of upstream outcomes, and the router metadata built from its attempts.
*/
module Failover {
  import opened Options

  /** What trying one candidate leads to. A network error can come with a response whose body is already
      closed: Go's client does that when it gives up on a chain of redirects. `Answer` carries what the chat
      fallback would give, which only matters when the status asks for it. */
  datatype Outcome =
    | NoClient
    | RewriteFails
    | BuildFails
    | NetworkError(leftover: Option<int>)
    | Answer(status: int, fallback: Fallback)

  datatype Fallback = FallbackFails | FallbackAnswer(status: int)

  datatype Candidate = Candidate(provider: string, model: string)

  datatype Attempt = Attempt(index: nat, provider: string, model: string, success: bool, statusCode: int,
                             failureClass: string)

  datatype Result =
    | Aborted(status: int)
    | Completed(selected: nat, response: Option<int>, viaChat: bool, attempts: seq<Attempt>)

  predicate Retryable(status: int)
  {
    status == 408 || status == 429 || status == 502 || status == 503 || status == 504
  }

  function FailureClass(status: int): string
  {
    if status == 429 then "rate_limited"
    else if status >= 500 then "upstream_5xx"
    else if status >= 400 then "upstream_4xx"
    else ""
  }

  predicate ShouldFallback(endpoint: string, status: int)
  {
    endpoint == "/v1/responses" && (status == 404 || status == 405)
  }

  // ----- what the loop is for, said without the loop

  /** The status a candidate finally answers with, if it answers at all. */
  function FinalStatus(endpoint: string, o: Outcome): Option<int>
  {
    if !o.Answer? then None
    else if !ShouldFallback(endpoint, o.status) then Some(o.status)
    else if o.fallback.FallbackAnswer? then Some(o.fallback.status)
    else None
  }

  predicate Aborts(o: Outcome)
  {
    o.RewriteFails? || o.BuildFails?
  }

  /** Trying the next candidate would be pointless: an answer that is not worth a retry, or an abort. */
  predicate Stops(endpoint: string, o: Outcome)
  {
    Aborts(o) || (FinalStatus(endpoint, o).Some? && !Retryable(FinalStatus(endpoint, o).value))
  }

  /** The candidate at which the search ends: the first that stops it, or else the last. */
  ghost predicate IsTheEnd(endpoint: string, outcomes: seq<Outcome>, k: nat)
  {
    && k < |outcomes|
    && (forall i :: 0 <= i < k ==> !Stops(endpoint, outcomes[i]))
    && (k == |outcomes| - 1 || Stops(endpoint, outcomes[k]))
  }

  /** How a tried candidate is recorded. */
  function Record(endpoint: string, candidate: Candidate, o: Outcome, index: nat, last: bool): Attempt
  {
    match FinalStatus(endpoint, o)
    case Some(status) =>
      Attempt(index, candidate.provider, candidate.model, last && status < 400, status, FailureClass(status))
    case None =>
      var failureClass := if o.Answer? then "responses_fallback_failed" else "network_error";
      Attempt(index, candidate.provider, candidate.model, false, 0, failureClass)
  }

  /** What the variable `response` holds when the candidate after the first `i` is about to be tried. The code
      clears it after every failed answer, but not after an error. */
  function Carried(outcomes: seq<Outcome>, i: nat): Option<int>
    requires i <= |outcomes|
  {
    if i == 0 then None
    else
      match outcomes[i - 1]
      case NoClient => Carried(outcomes, i - 1)
      case NetworkError(leftover) => leftover
      case _ => None
  }

  /** What it holds when the search ends at candidate `k`. */
  function Response(endpoint: string, outcomes: seq<Outcome>, k: nat): Option<int>
    requires k < |outcomes|
  {
    if outcomes[k].Answer? then FinalStatus(endpoint, outcomes[k]) else Carried(outcomes, k + 1)
  }

  /** The result of a search that ends at candidate `k`. */
  ghost predicate IsResult(endpoint: string, candidates: seq<Candidate>, outcomes: seq<Outcome>, k: nat, result: Result)
    requires |candidates| == |outcomes| && k < |outcomes|
  {
    if Aborts(outcomes[k]) then result == Aborted(if outcomes[k].RewriteFails? then 400 else 500)
    else
      && result.Completed? && result.selected == k && result.response == Response(endpoint, outcomes, k)
      && result.viaChat == (FinalStatus(endpoint, outcomes[k]).Some? && ShouldFallback(endpoint, outcomes[k].status))
      && |result.attempts| == k + 1
      && forall i :: 0 <= i <= k ==>
           result.attempts[i] == Record(endpoint, candidates[i], outcomes[i], i + 1, i == k)
  }

  /** The loop. `open` counts the response bodies that were opened and not closed again. */
  method Forward(endpoint: string, candidates: seq<Candidate>, outcomes: seq<Outcome>)
    returns (result: Result, open: int, ghost k: nat)
    requires |candidates| == |outcomes| > 0
    ensures IsTheEnd(endpoint, outcomes, k) && IsResult(endpoint, candidates, outcomes, k, result)
    ensures open == if FinalStatus(endpoint, outcomes[k]).Some? then 1 else 0
  {
    var response: Option<int> := None;
    var selected := 0;
    var attempts: seq<Attempt> := [];
    var viaChat := false;
    open := 0;
    k := 0;
    var index := 0;
    while index < |candidates|
      invariant 0 <= index < |candidates|
      invariant |attempts| == index && response == Carried(outcomes, index) && open == 0
      invariant forall i :: 0 <= i < index ==> !Stops(endpoint, outcomes[i])
      invariant forall i :: 0 <= i < index ==> attempts[i] == Record(endpoint, candidates[i], outcomes[i], i + 1, false)
      decreases |candidates| - index
    {
      k := index;
      var candidate := candidates[index];
      var outcome := outcomes[index];
      selected := index;
      viaChat := false;
      if outcome.NoClient? {
        attempts := attempts + [Attempt(index + 1, candidate.provider, candidate.model, false, 0, "network_error")];
        if index < |candidates| - 1 {
          index := index + 1;
          continue;
        }
        break;
      }
      if outcome.RewriteFails? {
        return Aborted(400), open, k;
      }
      if outcome.BuildFails? {
        return Aborted(500), open, k;
      }
      if outcome.NetworkError? {
        response := outcome.leftover;
        attempts := attempts + [Attempt(index + 1, candidate.provider, candidate.model, false, 0, "network_error")];
        if index < |candidates| - 1 {
          index := index + 1;
          continue;
        }
        break;
      }
      response := Some(outcome.status);
      open := open + 1;
      if ShouldFallback(endpoint, response.value) {
        open := open - 1;
        if outcome.fallback.FallbackFails? {
          attempts := attempts
            + [Attempt(index + 1, candidate.provider, candidate.model, false, 0, "responses_fallback_failed")];
          response := None;
          if index < |candidates| - 1 {
            index := index + 1;
            continue;
          }
          break;
        }
        response := Some(outcome.fallback.status);
        open := open + 1;
        viaChat := true;
      }
      var status := response.value;
      if Retryable(status) && index < |candidates| - 1 {
        attempts := attempts
          + [Attempt(index + 1, candidate.provider, candidate.model, false, status, FailureClass(status))];
        open := open - 1;
        response := None;
        index := index + 1;
        continue;
      }
      var success, failureClass := true, "";
      if status >= 400 {
        success, failureClass := false, FailureClass(status);
      }
      attempts := attempts + [Attempt(index + 1, candidate.provider, candidate.model, success, status, failureClass)];
      break;
    }
    result := Completed(selected, response, viaChat, attempts);
  }

  /** The end of the search is unique, so the contract of the loop leaves no choice. */
  lemma TheEndIsUnique(endpoint: string, outcomes: seq<Outcome>, j: nat, k: nat)
    requires IsTheEnd(endpoint, outcomes, j) && IsTheEnd(endpoint, outcomes, k)
    ensures j == k
  {
    assert forall i :: 0 <= i < |outcomes| && Stops(endpoint, outcomes[i]) ==> j <= i && k <= i;
  }

  /** A completed search and what it recorded. */
  ghost predicate IsSearch(endpoint: string, candidates: seq<Candidate>, outcomes: seq<Outcome>, k: nat, result: Result)
  {
    && |candidates| == |outcomes| && IsTheEnd(endpoint, outcomes, k) && !Aborts(outcomes[k])
    && IsResult(endpoint, candidates, outcomes, k, result)
  }

  /** The attempts tell the story: numbered from one in candidate order; only the last can be a success,
      and it is one exactly when the last candidate answered with a status below 400; every earlier one
      failed on the network, in the conversion, or with a status worth a retry. */
  lemma AttemptsTellTheStory(endpoint: string, candidates: seq<Candidate>, outcomes: seq<Outcome>, k: nat,
                             result: Result)
    requires IsSearch(endpoint, candidates, outcomes, k, result)
    ensures forall i :: 0 <= i <= k ==>
              result.attempts[i].index == i + 1 && result.attempts[i].provider == candidates[i].provider
    ensures forall i :: 0 <= i < k ==>
              && !result.attempts[i].success
              && (result.attempts[i].statusCode == 0 || Retryable(result.attempts[i].statusCode))
              && (FinalStatus(endpoint, outcomes[i]).None? ==> result.attempts[i].statusCode == 0)
    ensures var answer := FinalStatus(endpoint, outcomes[k]);
            && result.attempts[k].success == (answer.Some? && answer.value < 400)
            && (answer.Some? ==> k == |outcomes| - 1 || !Retryable(answer.value))
            && (answer.None? ==>
                  k == |outcomes| - 1 && !result.attempts[k].success && result.attempts[k].statusCode == 0)
  {
    forall i | 0 <= i < k
      ensures !result.attempts[i].success
              && (result.attempts[i].statusCode == 0 || Retryable(result.attempts[i].statusCode))
    {
      assert !Stops(endpoint, outcomes[i]);
    }
  }

  /** What comes back when the search ends at candidate `k`, by what trying it led to. On the responses
      endpoint a 404 or 405 of the upstream is replaced by the answer of the chat fallback, if that gives one;
      otherwise the upstream's own answer counts. */
  lemma ResponseIsTheAnswer(endpoint: string, candidates: seq<Candidate>, outcomes: seq<Outcome>, k: nat,
                            result: Result)
    requires IsSearch(endpoint, candidates, outcomes, k, result)
    ensures var o := outcomes[k];
            var converted := o.Answer? && endpoint == "/v1/responses" && (o.status == 404 || o.status == 405);
            && (o.Answer? && !converted ==> result.response == Some(o.status) && !result.viaChat)
            && (converted && o.fallback.FallbackAnswer? ==>
                  result.response == Some(o.fallback.status) && result.viaChat)
            && (converted && o.fallback.FallbackFails? ==> result.response == None && !result.viaChat)
            && (!o.Answer? ==> !result.viaChat)
  {
  }

  /** How each candidate that was tried is recorded: the status that counts, and a success exactly if the
      search ended there and that status is below 400. */
  lemma AttemptIsRecorded(endpoint: string, candidates: seq<Candidate>, outcomes: seq<Outcome>, k: nat,
                          result: Result, i: nat)
    requires IsSearch(endpoint, candidates, outcomes, k, result) && i <= k
    ensures var o, a := outcomes[i], result.attempts[i];
            var converted := o.Answer? && endpoint == "/v1/responses" && (o.status == 404 || o.status == 405);
            && a.index == i + 1 && a.provider == candidates[i].provider && a.model == candidates[i].model
            && (o.Answer? && !converted ==> a.statusCode == o.status && (a.success <==> i == k && o.status < 400))
            && (converted && o.fallback.FallbackAnswer? ==>
                  a.statusCode == o.fallback.status && (a.success <==> i == k && o.fallback.status < 400))
            && (converted && o.fallback.FallbackFails? ==>
                  !a.success && a.statusCode == 0 && a.failureClass == "responses_fallback_failed")
            && (!o.Answer? ==> !a.success && a.statusCode == 0 && a.failureClass == "network_error")
            && (o.Answer? && !(converted && o.fallback.FallbackFails?) ==>
                  a.failureClass == (if a.statusCode == 429 then "rate_limited"
                                     else if a.statusCode >= 500 then "upstream_5xx"
                                     else if a.statusCode >= 400 then "upstream_4xx" else ""))
  {
  }

  /** The status that counts, of the upstream or of the fallback, is worth trying another candidate. */
  ghost predicate WorthARetry(status: int)
  {
    status in {408, 429, 502, 503, 504}
  }

  /** A candidate that was tried is passed over exactly if there is another one and it has no client, ran into
      a network error, failed in the conversion, or its answer's status, or the fallback's, is worth a retry. */
  lemma PassedOverIff(endpoint: string, candidates: seq<Candidate>, outcomes: seq<Outcome>, k: nat, result: Result,
                      i: nat)
    requires IsSearch(endpoint, candidates, outcomes, k, result) && i <= k
    ensures var o := outcomes[i];
            var converted := o.Answer? && endpoint == "/v1/responses" && (o.status == 404 || o.status == 405);
            i < k <==>
              && i < |outcomes| - 1
              && (|| o.NoClient? || o.NetworkError?
                  || (converted && o.fallback.FallbackFails?)
                  || (converted && o.fallback.FallbackAnswer? && WorthARetry(o.fallback.status))
                  || (o.Answer? && !converted && WorthARetry(o.status)))
  {
    if i < k { assert !Stops(endpoint, outcomes[i]); }
  }

  /** And a search is given up exactly at a request that cannot be rewritten or built. */
  lemma GivenUpIff(endpoint: string, candidates: seq<Candidate>, outcomes: seq<Outcome>, k: nat, result: Result)
    requires |candidates| == |outcomes| && IsTheEnd(endpoint, outcomes, k)
    requires IsResult(endpoint, candidates, outcomes, k, result)
    ensures result == Aborted(400) <==> outcomes[k].RewriteFails?
    ensures result == Aborted(500) <==> outcomes[k].BuildFails?
    ensures result.Completed? <==> !outcomes[k].RewriteFails? && !outcomes[k].BuildFails?
  {
  }

  // ----- a response that is left over

  /** Candidate `j` ran into an error that came with a response, and no later candidate had a client. */
  ghost predicate LeftBy(outcomes: seq<Outcome>, k: nat, j: nat)
    requires k < |outcomes|
  {
    && j <= k && outcomes[j].NetworkError? && outcomes[j].leftover.Some?
    && forall i :: j < i <= k ==> outcomes[i].NoClient?
  }

  lemma {:induction false} CarriedIsLeft(outcomes: seq<Outcome>, k: nat)
    requires k < |outcomes| && !outcomes[k].Answer? && !Aborts(outcomes[k])
    ensures Carried(outcomes, k + 1).Some? <==> exists j: nat :: LeftBy(outcomes, k, j)
    ensures forall j: nat :: LeftBy(outcomes, k, j) ==> Carried(outcomes, k + 1) == outcomes[j].leftover
  {
    if outcomes[k].NoClient? && k > 0 {
      var p: nat := k - 1;
      assert forall j: nat :: LeftBy(outcomes, k, j) ==> j <= p && LeftBy(outcomes, p, j);
      if !outcomes[p].Answer? && !Aborts(outcomes[p]) {
        CarriedIsLeft(outcomes, p);
        assert forall j: nat :: LeftBy(outcomes, p, j) ==> LeftBy(outcomes, k, j);
      }
    } else if outcomes[k].NetworkError? && outcomes[k].leftover.Some? {
      assert LeftBy(outcomes, k, k);
    }
  }

  /** There is no response exactly if the last candidate tried gave none: that holds unless a response was
      left over. */
  lemma NoResponseIff(endpoint: string, candidates: seq<Candidate>, outcomes: seq<Outcome>, k: nat, result: Result)
    requires IsSearch(endpoint, candidates, outcomes, k, result)
    ensures (result.response.None? <==> FinalStatus(endpoint, outcomes[k]).None?)
            <==> forall j: nat :: !LeftBy(outcomes, k, j)
  {
    if !outcomes[k].Answer? { CarriedIsLeft(outcomes, k); }
  }

  /** The last attempt is a success exactly if there is a response below 400: that holds unless a response
      below 400, such as a redirect, was left over. */
  lemma SuccessIff(endpoint: string, candidates: seq<Candidate>, outcomes: seq<Outcome>, k: nat, result: Result)
    requires IsSearch(endpoint, candidates, outcomes, k, result)
    ensures (result.attempts[k].success <==> result.response.Some? && result.response.value < 400)
            <==> forall j: nat :: LeftBy(outcomes, k, j) ==> outcomes[j].leftover.value >= 400
  {
    if !outcomes[k].Answer? { CarriedIsLeft(outcomes, k); }
  }

  /** An upstream that redirects too often, alone or before a candidate without a client: every attempt failed,
      yet there is a response, a redirect whose body is closed. */
  lemma RedirectIsLeftOver(endpoint: string, a: Candidate, b: Candidate, result: Result, both: Result)
    requires IsSearch(endpoint, [a], [NetworkError(Some(302))], 0, result)
    requires IsSearch(endpoint, [a, b], [NetworkError(Some(302)), NoClient], 1, both)
    ensures result.response == Some(302) && !result.attempts[0].success
    ensures both.response == Some(302) && both.selected == 1 && !both.attempts[0].success && !both.attempts[1].success
  {
    var outcomes := [NetworkError(Some(302)), NoClient];
    assert Carried(outcomes, 2) == Carried(outcomes, 1) == Some(302);
  }

  // ----- the metadata

  datatype Endpoint = Endpoint(provider: string, model: string, selected: bool)

  datatype Metadata = Metadata(resolvedModel: string, attempt: int, attempts: seq<Attempt>, available: seq<Endpoint>)

  /** `buildRouterMetadata`: the list of endpoints, and a backward search for the successful attempt. */
  method BuildMetadata(candidates: seq<Candidate>, selected: Candidate, attempts: seq<Attempt>) returns (m: Metadata)
    ensures m.resolvedModel == selected.model && m.attempts == attempts
    ensures |m.available| == |candidates|
    ensures forall i :: 0 <= i < |candidates| ==>
              m.available[i] == Endpoint(candidates[i].provider, candidates[i].model, candidates[i] == selected)
    ensures m.attempt == AttemptNumber(attempts)
  {
    var available: seq<Endpoint> := [];
    for i := 0 to |candidates|
      invariant |available| == i
      invariant forall j :: 0 <= j < i ==>
                  available[j] == Endpoint(candidates[j].provider, candidates[j].model, candidates[j] == selected)
    {
      var isSelected := candidates[i].provider == selected.provider && candidates[i].model == selected.model;
      available := available + [Endpoint(candidates[i].provider, candidates[i].model, isSelected)];
    }
    var attempt: int := |attempts|;
    assert attempts[..|attempts|] == attempts;
    var index := |attempts| - 1;
    while index >= 0
      invariant -1 <= index < |attempts| && attempt == |attempts|
      invariant forall j :: index < j < |attempts| ==> !attempts[j].success
      invariant LastSuccess(attempts[..index + 1]) == LastSuccess(attempts)
    {
      assert attempts[..index + 1][..index] == attempts[..index];
      if attempts[index].success {
        attempt := attempts[index].index;
        break;
      }
      index := index - 1;
    }
    if attempt == 0 {
      attempt := |attempts|;
    }
    m := Metadata(selected.model, attempt, attempts, available);
  }

  /** The number recorded with the last successful attempt, or 0. */
  function LastSuccess(attempts: seq<Attempt>): nat
  {
    if attempts == [] then 0
    else if attempts[|attempts| - 1].success then attempts[|attempts| - 1].index
    else LastSuccess(attempts[..|attempts| - 1])
  }

  function AttemptNumber(attempts: seq<Attempt>): nat
  {
    if LastSuccess(attempts) == 0 then |attempts| else LastSuccess(attempts)
  }

  lemma {:induction false} NoSuccessNoNumber(attempts: seq<Attempt>)
    requires forall i :: 0 <= i < |attempts| ==> !attempts[i].success
    ensures LastSuccess(attempts) == 0
  {
    if attempts != [] { NoSuccessNoNumber(attempts[..|attempts| - 1]); }
  }

  /** For the attempts of the loop the number is simply how many there are. */
  lemma AttemptNumberIsCount(attempts: seq<Attempt>)
    requires IndexedWithOneSuccess(attempts)
    ensures AttemptNumber(attempts) == |attempts|
  {
    if attempts != [] { NoSuccessNoNumber(attempts[..|attempts| - 1]); }
  }

  /** Attempts numbered from one of which at most the last succeeded. */
  ghost predicate IndexedWithOneSuccess(attempts: seq<Attempt>)
  {
    && (forall i :: 0 <= i < |attempts| ==> attempts[i].index == i + 1)
    && (forall i :: 0 <= i < |attempts| - 1 ==> !attempts[i].success)
  }

  /** The whole request: the metadata's attempt number is the number of attempts, whatever the upstreams do,
      and the endpoint marked as selected is the last one tried. */
  method ForwardAndDescribe(endpoint: string, candidates: seq<Candidate>, outcomes: seq<Outcome>)
    returns (result: Result, m: Metadata)
    requires |candidates| == |outcomes| > 0
    ensures result.Completed? ==>
              && 0 < |result.attempts| <= |candidates|
              && m.attempt == |result.attempts| && m.attempts == result.attempts
              && result.selected == |result.attempts| - 1
              && m.resolvedModel == candidates[result.selected].model
              && |m.available| == |candidates| && m.available[result.selected].selected
    ensures result.Completed? ==>
              ((result.attempts[result.selected].success <==> result.response.Some? && result.response.value < 400)
               <==> forall j: nat :: LeftBy(outcomes, result.selected, j) ==> outcomes[j].leftover.value >= 400)
  {
    var open;
    ghost var k;
    result, open, k := Forward(endpoint, candidates, outcomes);
    m := Metadata("", 0, [], []);
    if result.Completed? {
      AttemptsTellTheStory(endpoint, candidates, outcomes, k, result);
      SuccessIff(endpoint, candidates, outcomes, k, result);
      AttemptNumberIsCount(result.attempts);
      m := BuildMetadata(candidates, candidates[result.selected], result.attempts);
    }
  }
}
