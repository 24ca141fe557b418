/**
 * The identifiers, contracts, edges and digests shared by the task modules.
 *
 * A digest is symbolic: it is built from a domain (the constructor) and the value that was hashed,
 * so two digests are equal exactly when their domains and values are.  `Opaque` is any other text
 * that an event may carry where a digest is expected.
 */
module Identity {
  import opened Wrappers

  /** A task id: free text, or the id that a plan derives for its child `key`. */
  datatype TaskId = Named(text: string) | PlanChild(plan: Digest, key: string)

  /** An edge id: free text, or the id that a plan derives for one of its edges. */
  datatype EdgeId = EdgeNamed(text: string) | PlanEdge(plan: Digest, source: TaskId, dependent: TaskId)

  datatype Kind = Work | Planner

  datatype Contract = Contract(
    taskId: TaskId,
    title: string,
    instructions: string,
    acceptanceCriteria: seq<string>,
    kind: Kind,
    sourceTaskId: Option<TaskId>)

  datatype TerminalState = Succeeded | Failed | Cancelled

  datatype EdgeType = RequiresSuccess | RequiresTerminal | RequiresOutcome

  datatype Edge = Edge(
    edgeId: EdgeId,
    sourceTaskId: TaskId,
    dependentTaskId: TaskId,
    edgeType: EdgeType,
    allowedOutcomes: Option<seq<TerminalState>>,
    releasePredicate: string,
    propagateCancellation: bool)

  datatype PlanItem = PlanItem(
    key: string,
    title: string,
    instructions: string,
    acceptanceCriteria: seq<string>,
    dependsOn: seq<string>)

  /** An execution profile, reduced to the fields the reducer compares. */
  datatype Profile = Profile(
    adapterId: string,
    hostId: string,
    hostVersion: string,
    providerId: string,
    modelId: string,
    purpose: Kind,
    settings: string)

  /** The context binding of one attempt. */
  datatype Binding = Binding(
    attemptId: string,
    generation: int,
    forkPinDigest: string,
    contextManifestCoreDigest: string,
    providerIdempotencyKey: string,
    allowedProducerPrincipalId: string,
    allowedProducerGrantDigest: string)

  datatype Digest =
    | Opaque(text: string)
    | ContractDigest(contract: Contract)
    | ProfileDigest(profile: Profile)
    | BindingDigest(binding: Binding)
    | IdempotencyKeyDigest(providerKey: string)
    | PlanDigest(sourceTaskId: TaskId, sourceContractDigest: Digest, items: seq<PlanItem>)
    | GraphDigest(contracts: set<Contract>, edges: set<Edge>)
}
