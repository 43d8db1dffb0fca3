/**
 * PublishingRollback: the steps a publish has completed are recorded in
 * order, and Execute undoes them newest first, one cleanup per known step
 * name; an unknown name is only logged.
 */
module Rollback {
  import opened Wrappers
  import opened Service

  /** The step name a publish records for each kind of resource. */
  function StepName(k: CleanupKind): string
  {
    match k
    case ApiKey => "api_key"
    case Gateway => "gateway_config"
    case RateLimit => "rate_limiting"
    case Metadata => "metadata"
  }

  /** Execute's switch: the cleanup a step name selects, or None for the default branch. */
  function CleanupFor(step: string): (r: Option<CleanupKind>)
    ensures r.Some? ==> step == StepName(r.value)
    ensures r.None? ==> forall k :: step != StepName(k)
  {
    if step == "api_key" then Some(ApiKey)
    else if step == "gateway_config" then Some(Gateway)
    else if step == "rate_limiting" then Some(RateLimit)
    else if step == "metadata" then Some(Metadata)
    else None
  }

  /** The calls that undoing one step makes: one cleanup, or none. */
  function CallsFor(step: string, namespace: string, modelName: string): seq<CleanupCall>
  {
    match CleanupFor(step)
    case None => []
    case Some(k) => [CleanupCall(k, namespace, modelName)]
  }

  /** The calls Execute makes for steps, newest step first. */
  function Compensations(steps: seq<string>, namespace: string, modelName: string): (r: seq<CleanupCall>)
    ensures |r| <= |steps|
  {
    if |steps| == 0 then []
    else Compensations(steps[1..], namespace, modelName) + CallsFor(steps[0], namespace, modelName)
  }

  /** Every call a rollback makes is about its own namespace and model. */
  lemma {:induction false} CompensationsForModel(steps: seq<string>, namespace: string, modelName: string)
    ensures forall i | 0 <= i < |Compensations(steps, namespace, modelName)| ::
              Compensations(steps, namespace, modelName)[i].namespace == namespace &&
              Compensations(steps, namespace, modelName)[i].modelName == modelName
  {
    if |steps| > 0 {
      CompensationsForModel(steps[1..], namespace, modelName);
    }
  }

  /** The step added last is undone first. */
  lemma {:induction false} CompensationsAppend(steps: seq<string>, step: string, namespace: string, modelName: string)
    ensures Compensations(steps + [step], namespace, modelName)
            == CallsFor(step, namespace, modelName) + Compensations(steps, namespace, modelName)
  {
    if |steps| > 0 {
      assert (steps + [step])[1..] == steps[1..] + [step];
      CompensationsAppend(steps[1..], step, namespace, modelName);
    }
  }

  /** Steps with no known name cause no cleanup at all. */
  lemma {:induction false} UnknownStepsIgnored(steps: seq<string>, namespace: string, modelName: string)
    requires forall i | 0 <= i < |steps| :: CleanupFor(steps[i]).None?
    ensures Compensations(steps, namespace, modelName) == []
  {
    if |steps| > 0 {
      UnknownStepsIgnored(steps[1..], namespace, modelName);
    }
  }

  /**
   * When every step is known, step i (counting from the newest, 0-based) is
   * undone by the i-th call, for this rollback's namespace and model.
   */
  lemma {:induction false} CompensationsReversed(steps: seq<string>, namespace: string, modelName: string)
    requires forall i | 0 <= i < |steps| :: CleanupFor(steps[i]).Some?
    ensures |Compensations(steps, namespace, modelName)| == |steps|
    ensures forall i | 0 <= i < |steps| ::
              Compensations(steps, namespace, modelName)[i]
              == CleanupCall(CleanupFor(steps[|steps| - 1 - i]).value, namespace, modelName)
  {
    if |steps| > 0 {
      var rest := steps[1..];
      var r := Compensations(steps, namespace, modelName);
      var front := Compensations(rest, namespace, modelName);
      CompensationsReversed(rest, namespace, modelName);
      var last := CleanupCall(CleanupFor(steps[0]).value, namespace, modelName);
      assert CallsFor(steps[0], namespace, modelName) == [last];
      assert r == front + [last];
      forall i | 0 <= i < |steps|
        ensures r[i] == CleanupCall(CleanupFor(steps[|steps| - 1 - i]).value, namespace, modelName)
      {
        if i < |rest| {
          assert r[i] == front[i];
          assert rest[|rest| - 1 - i] == steps[|steps| - 1 - i];
        }
      }
    }
  }

  /** Api key, gateway and rate limit recorded in that order are cleaned up rate limit first. */
  lemma RollbackOrderExample(namespace: string, modelName: string)
    ensures Compensations(["api_key", "gateway_config", "rate_limiting"], namespace, modelName)
            == [CleanupCall(RateLimit, namespace, modelName),
                CleanupCall(Gateway, namespace, modelName),
                CleanupCall(ApiKey, namespace, modelName)]
  {
    var steps := ["api_key", "gateway_config", "rate_limiting"];
    assert CleanupFor("api_key") == Some(ApiKey) by { assert "api_key" == StepName(ApiKey); }
    assert CleanupFor("gateway_config") == Some(Gateway) by { assert "gateway_config" == StepName(Gateway); }
    assert CleanupFor("rate_limiting") == Some(RateLimit) by { assert "rate_limiting" == StepName(RateLimit); }
    assert steps[1..][1..] == ["rate_limiting"];
    assert Compensations(steps[1..][1..], namespace, modelName) == [CleanupCall(RateLimit, namespace, modelName)];
    assert steps[1..] == ["gateway_config", "rate_limiting"];
    assert Compensations(steps[1..], namespace, modelName)
           == [CleanupCall(RateLimit, namespace, modelName), CleanupCall(Gateway, namespace, modelName)];
  }

  class PublishingRollback {
    const service: PublishingService
    const namespace: string
    const modelName: string
    /** The completed steps, oldest first. */
    var steps: seq<string>

    /** NewPublishingRollback */
    constructor(service: PublishingService, namespace: string, modelName: string)
      ensures this.service == service && this.namespace == namespace && this.modelName == modelName
      ensures steps == []
    {
      this.service := service;
      this.namespace := namespace;
      this.modelName := modelName;
      steps := [];
    }

    method AddStep(step: string)
      modifies this
      ensures steps == old(steps) + [step]
    {
      steps := steps + [step];
    }

    /** Undo the recorded steps, newest first; the list of steps itself is kept. */
    method Execute()
      modifies service
      ensures service.cleanups == old(service.cleanups) + Compensations(steps, namespace, modelName)
    {
      var i := |steps| - 1;
      while i >= 0
        invariant -1 <= i < |steps|
        invariant service.cleanups == old(service.cleanups) + Compensations(steps[i + 1..], namespace, modelName)
        decreases i
      {
        var step := steps[i];
        assert steps[i..][1..] == steps[i + 1..];
        var kind := CleanupFor(step);
        if kind.Some? {
          service.Cleanup(kind.value, namespace, modelName);
        }
        i := i - 1;
      }
    }
  }
}
