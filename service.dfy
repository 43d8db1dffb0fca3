/**
 * The part of PublishingService that the rollback and recovery code calls:
 * the four cleanup operations.  Their effect on the cluster is outside this
 * model; each call is recorded, in order, in `cleanups`.
 */
module Service {
  /** The four kinds of resource a publish creates and a cleanup removes. */
  datatype CleanupKind = ApiKey | Gateway | RateLimit | Metadata

  /** One call to cleanupAPIKey, cleanupGatewayConfiguration, cleanupRateLimitingPolicy or cleanupPublishedModelMetadata. */
  datatype CleanupCall = CleanupCall(kind: CleanupKind, namespace: string, modelName: string)

  class PublishingService {
    /** Every cleanup call made so far, oldest first. */
    var cleanups: seq<CleanupCall>

    constructor()
      ensures cleanups == []
    {
      cleanups := [];
    }

    method Cleanup(kind: CleanupKind, namespace: string, modelName: string)
      modifies this
      ensures cleanups == old(cleanups) + [CleanupCall(kind, namespace, modelName)]
    {
      cleanups := cleanups + [CleanupCall(kind, namespace, modelName)];
    }
  }
}
