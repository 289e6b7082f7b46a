/** Who acts, what a person is asked to approve, and what the person decided. */
module Actors {

  datatype ActorType = SystemActor | AiActor | FounderActor | BackerActor | ProviderActor | EvaluatorActor | AdapterActor

  datatype Actor = Actor(actorType: ActorType, actorId: string)

  datatype ActionKind = ReleaseApproval | OtherAction

  datatype Decision = Pending | Approved | Rejected
}
