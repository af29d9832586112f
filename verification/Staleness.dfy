/** `client/src/core/staleness.ts`: which held answers one ledger record can have
    made old, question name by question name. */
module Staleness {

  datatype Reach = Every | Nothing | SameRun | NewestPage

  /** The record kinds the verdicts name; every other kind is `OtherKind`. */
  datatype EventKind =
    | ApprovalRequested | ApprovalResolved | AssetArchived | AutonomyChanged | BuildingConfigured
    | BuildingCreated | BuildingRemoved | CheckpointCommitted | DiscardRestored | DocumentWritten
    | EndpointAttached | EndpointLost | EndpointProbed | FileDiscarded | FileRestored
    | GovernedDocumentWritten | HandoffWritten | LoginStarted | ModelReturned | ModelSelected
    | PolicyCreated | PolicyRevoked | PrMerged | ProposalDecided | ProposalOffered
    | ProposalWithdrawn | ProviderDegraded | PursuitChanged | RoadmapBlocked | RoadmapClaimed
    | RoadmapFinished | RoadmapReleased | RoadmapSplit | RulesChanged | RunFrozen | RunStarted
    | SessionOpened | SignalConsumed | SignalEnqueued | SkillAudited | OtherKind(kind: string)

  /** The question names the verdicts name; every other name is `OtherName`. */
  datatype Name =
    | CityView | Metrics | History | Rounds | Evidence | RunView | RunHistory | ApprovalQueue
    | Governance | EndpointView | ModelFigures | InboxView | DiscardView | RegistryView | CostView
    | CostOf | Prefix | Content | Range | Preview | Reply | Bytes | Export | Skills | GitStatus
    | Commits | BuildingView | Listing | Find | Document | Versions | ArchiveSearch | Proposals
    | Layers | OpenProposals | Identity | Config | Catalog | Sessions | SkillUsage | McpUsage
    | Shells | OtherName(name: string)

  predicate Includes(s: string, part: string) {
    part <= s || (s != [] && Includes(s[1..], part))
  }

  /** A reach judged for one answer: by the key it is held under, and whose record it is. */
  predicate Reaches(reach: Reach, key: string, run: string) {
    match reach
    case Every => true
    case Nothing => false
    case SameRun => Includes(key, run)
    case NewestPage => Includes(key, "\"before\":null")
  }

  predicate ProviderMoved(k: EventKind) {
    k.EndpointAttached? || k.EndpointLost? || k.EndpointProbed? || k.ModelSelected?
    || k.LoginStarted? || k.ProviderDegraded?
  }

  predicate GovernanceMoved(k: EventKind) {
    k.ApprovalResolved? || k.AutonomyChanged? || k.PolicyCreated? || k.PolicyRevoked?
  }

  predicate BuildingMoved(k: EventKind) {
    k.BuildingCreated? || k.BuildingConfigured? || k.BuildingRemoved? || k.RoadmapClaimed?
    || k.RoadmapFinished? || k.FileRestored? || k.RoadmapReleased? || k.RoadmapSplit?
    || k.RoadmapBlocked? || k.PursuitChanged? || k.CheckpointCommitted? || k.HandoffWritten?
    || k.RunStarted? || k.RunFrozen? || k.PrMerged? || k.AssetArchived?
    || k.GovernedDocumentWritten? || k.DocumentWritten? || k.RulesChanged?
  }

  predicate ProposalsMoved(k: EventKind) {
    k.ProposalOffered? || k.ProposalDecided? || k.ProposalWithdrawn? || k.DocumentWritten?
  }

  predicate LayersMoved(k: EventKind) {
    k.GovernedDocumentWritten? || k.DocumentWritten? || k.CheckpointCommitted? || k.FileRestored?
  }

  function Reached(moved: bool): Reach { if moved then Every else Nothing }

  function ReachOf(name: Name, k: EventKind): Reach {
    match name
    case CityView | Metrics | History =>
      Every
    case Rounds | Evidence | RunView | RunHistory =>
      SameRun
    case ApprovalQueue =>
      Reached(k.ApprovalRequested? || k.ApprovalResolved?)
    case Governance =>
      Reached(GovernanceMoved(k))
    case EndpointView | ModelFigures =>
      Reached(ProviderMoved(k))
    case InboxView =>
      Reached(k.SignalEnqueued? || k.SignalConsumed?)
    case DiscardView =>
      Reached(k.FileDiscarded? || k.DiscardRestored?)
    case RegistryView =>
      Reached(k.AssetArchived?)
    case CostView | CostOf =>
      Reached(k.ModelReturned? || k.RoadmapClaimed?)
    case Prefix | Content | Range | Preview | Reply | Bytes | Export =>
      Nothing
    case Skills =>
      Reached(k.BuildingConfigured? || k.RunStarted?)
    case GitStatus =>
      Reached(k.CheckpointCommitted? || k.PrMerged? || k.FileRestored?)
    case Commits =>
      if k.CheckpointCommitted? || k.PrMerged? then NewestPage else Nothing
    case BuildingView | Listing | Find | Document | Versions | ArchiveSearch =>
      Reached(BuildingMoved(k))
    case Proposals =>
      Reached(ProposalsMoved(k))
    case Layers =>
      Reached(LayersMoved(k))
    case OpenProposals =>
      Reached(k.ProposalOffered? || k.ProposalDecided? || k.ProposalWithdrawn?)
    case Identity =>
      Reached(k.GovernedDocumentWritten?)
    case Config =>
      Reached(k.RulesChanged? || k.BuildingConfigured?)
    case Catalog =>
      Reached(k.RulesChanged? || k.BuildingConfigured? || k.RunFrozen?)
    case Sessions =>
      Reached(k.SessionOpened? || k.RunStarted? || k.RunFrozen?)
    case SkillUsage | McpUsage | Shells =>
      Reached(k.RunFrozen? || k.SkillAudited?)
    case OtherName(_) => Nothing
  }
}
