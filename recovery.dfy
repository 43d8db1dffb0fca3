/**
 * RecoveryHandler.RecoverFromFailure: when a failed publish left the model
 * (partly) published, every resource a publish creates is cleaned up; the
 * recovery itself never fails.
 */
module Recovery {
  import opened Wrappers
  import opened Service
  import opened Rollback

  /** The four cleanups of a recovery, in the order they are made. */
  function FullCleanup(namespace: string, modelName: string): seq<CleanupCall>
  {
    [CleanupCall(ApiKey, namespace, modelName),
     CleanupCall(Gateway, namespace, modelName),
     CleanupCall(RateLimit, namespace, modelName),
     CleanupCall(Metadata, namespace, modelName)]
  }

  /** How many of calls clean up a resource of kind k. */
  function Occurrences(calls: seq<CleanupCall>, k: CleanupKind): nat
  {
    if |calls| == 0 then 0
    else Occurrences(calls[..|calls| - 1], k) + (if calls[|calls| - 1].kind == k then 1 else 0)
  }

  /** Every kind of resource is cleaned up exactly once, all for the failed model. */
  lemma FullCleanupCoversAll(namespace: string, modelName: string, k: CleanupKind)
    ensures Occurrences(FullCleanup(namespace, modelName), k) == 1
    ensures forall c | c in FullCleanup(namespace, modelName) :: c.namespace == namespace && c.modelName == modelName
  {
    var calls := FullCleanup(namespace, modelName);
    var c1 := calls[..1];
    var c2 := calls[..2];
    var c3 := calls[..3];
    assert c1[..0] == [] && c2[..1] == c1 && c3[..2] == c2 && calls[..3] == c3;
    assert Occurrences(c1, k) == (if k == ApiKey then 1 else 0);
    assert Occurrences(c2, k) == (if k in {ApiKey, Gateway} then 1 else 0);
    assert Occurrences(c3, k) == (if k in {ApiKey, Gateway, RateLimit} then 1 else 0);
  }

  /**
   * A recovery makes the same calls as rolling back a publish whose
   * completed steps were recorded metadata first and api key last.
   */
  lemma FullCleanupIsRollback(namespace: string, modelName: string)
    ensures FullCleanup(namespace, modelName)
            == Compensations(["metadata", "rate_limiting", "gateway_config", "api_key"], namespace, modelName)
  {
    var steps := ["metadata", "rate_limiting", "gateway_config", "api_key"];
    assert CleanupFor("metadata") == Some(Metadata) by { assert "metadata" == StepName(Metadata); }
    assert CleanupFor("rate_limiting") == Some(RateLimit) by { assert "rate_limiting" == StepName(RateLimit); }
    assert CleanupFor("gateway_config") == Some(Gateway) by { assert "gateway_config" == StepName(Gateway); }
    assert CleanupFor("api_key") == Some(ApiKey) by { assert "api_key" == StepName(ApiKey); }
    CompensationsReversed(steps, namespace, modelName);
  }

  class RecoveryHandler {
    const service: PublishingService

    /** NewRecoveryHandler */
    constructor(service: PublishingService)
      ensures this.service == service
    {
      this.service := service;
    }

    /**
     * isPublished is what service.isModelPublished answered for the model;
     * err is only logged.  The result is the error returned, always nil.
     */
    method RecoverFromFailure(namespace: string, modelName: string, err: string, isPublished: bool)
      returns (result: Option<string>)
      modifies service
      ensures result == None
      ensures isPublished ==> service.cleanups == old(service.cleanups) + FullCleanup(namespace, modelName)
      ensures !isPublished ==> service.cleanups == old(service.cleanups)
    {
      if isPublished {
        service.Cleanup(ApiKey, namespace, modelName);
        service.Cleanup(Gateway, namespace, modelName);
        service.Cleanup(RateLimit, namespace, modelName);
        service.Cleanup(Metadata, namespace, modelName);
      }
      result := None;
    }
  }
}
