/** The vocabulary of the knowledge graph: backend/core/graph/schema.py. */
module GraphSchema {
  import opened Prelude

  datatype NodeType =
    | Account | JournalEntry | Reconciliation | FluxVariance | Finding | Task | Schedule | Memo | Evidence | Period
    | OtherType(name: string)

  datatype Relation =
    | Explains | ExplainedBy | ConsideredFor | Considered | Affects | AffectedBy | Supports | SupportedBy
    | FoundOn | HasFinding | PartOf | HasPart | Blocks | BlockedBy | Covers | CoveredBy | Documents | DocumentedBy
    | RelatesTo
    | OtherRelation(name: string)

  datatype Spec = Spec(inverse: Relation, srcTypes: set<NodeType>, dstTypes: set<NodeType>)

  datatype GraphError = UnknownRelation | UnknownSource | UnknownTarget | SourceNotAllowed | TargetNotAllowed | NoTenant

  const NODE_TYPES: set<NodeType> :=
    {Account, JournalEntry, Reconciliation, FluxVariance, Finding, Task, Schedule, Memo, Evidence, Period}

  /** The registry. */
  function SpecOf(r: Relation): Option<Spec> {
    match r
    case Explains => Some(Spec(ExplainedBy, {JournalEntry}, {Reconciliation, FluxVariance, Finding}))
    case ExplainedBy => Some(Spec(Explains, {Reconciliation, FluxVariance, Finding}, {JournalEntry}))
    case ConsideredFor => Some(Spec(Considered, {JournalEntry}, {Reconciliation, FluxVariance, Finding}))
    case Considered => Some(Spec(ConsideredFor, {Reconciliation, FluxVariance, Finding}, {JournalEntry}))
    case Affects => Some(Spec(AffectedBy, {JournalEntry}, {Account}))
    case AffectedBy => Some(Spec(Affects, {Account}, {JournalEntry}))
    case Supports => Some(Spec(SupportedBy, {Schedule, Memo, Evidence}, {Reconciliation}))
    case SupportedBy => Some(Spec(Supports, {Reconciliation}, {Schedule, Memo, Evidence}))
    case FoundOn => Some(Spec(HasFinding, {Finding}, {Account}))
    case HasFinding => Some(Spec(FoundOn, {Account}, {Finding}))
    case PartOf => Some(Spec(HasPart, {Finding, Reconciliation}, {Period}))
    case HasPart => Some(Spec(PartOf, {Period}, {Finding, Reconciliation}))
    case Blocks => Some(Spec(BlockedBy, {Finding, Task}, {Task}))
    case BlockedBy => Some(Spec(Blocks, {Task}, {Finding, Task}))
    case Covers => Some(Spec(CoveredBy, {Task}, {Reconciliation, Account}))
    case CoveredBy => Some(Spec(Covers, {Reconciliation, Account}, {Task}))
    case Documents => Some(Spec(DocumentedBy, {Memo}, {Reconciliation, Finding}))
    case DocumentedBy => Some(Spec(Documents, {Reconciliation, Finding}, {Memo}))
    case RelatesTo => Some(Spec(RelatesTo, NODE_TYPES, NODE_TYPES))
    case OtherRelation(_) => None
  }

  function InverseOf(r: Relation): Option<Relation> {
    if SpecOf(r).None? then None else Some(SpecOf(r).value.inverse)
  }

  /** None when the triple is permitted, otherwise the error raised. */
  function ValidateEdge(src: NodeType, r: Relation, dst: NodeType): Option<GraphError> {
    if SpecOf(r).None? then Some(UnknownRelation)
    else if src !in NODE_TYPES then Some(UnknownSource)
    else if dst !in NODE_TYPES then Some(UnknownTarget)
    else if src !in SpecOf(r).value.srcTypes then Some(SourceNotAllowed)
    else if dst !in SpecOf(r).value.dstTypes then Some(TargetNotAllowed)
    else None
  }

  predicate Permitted(src: NodeType, r: Relation, dst: NodeType) {
    ValidateEdge(src, r, dst).None?
  }

  /** The import-time guard: every inverse exists and points back. */
  lemma InversePointsBack(r: Relation)
    ensures InverseOf(r).Some? ==> InverseOf(InverseOf(r).value) == Some(r)
  {
  }

  lemma InverseSwapsSides(r: Relation, s: Relation)
    requires InverseOf(r) == Some(s)
    ensures SpecOf(s).Some? && SpecOf(s).value.srcTypes == SpecOf(r).value.dstTypes
        && SpecOf(s).value.dstTypes == SpecOf(r).value.srcTypes
  {
  }

  /** A triple is permitted exactly when the registry lists its ends for the relation; otherwise the
      error names the first thing wrong with it: the relation, a node type, an end not allowed. */
  lemma PermittedExactly(src: NodeType, r: Relation, dst: NodeType)
    ensures Permitted(src, r, dst) <==>
              SpecOf(r).Some? && src in SpecOf(r).value.srcTypes && dst in SpecOf(r).value.dstTypes
    ensures ValidateEdge(src, r, dst) == Some(UnknownRelation) <==> r.OtherRelation?
    ensures ValidateEdge(src, r, dst) == Some(UnknownSource) <==> !r.OtherRelation? && src.OtherType?
    ensures ValidateEdge(src, r, dst) == Some(UnknownTarget) <==>
              !r.OtherRelation? && !src.OtherType? && dst.OtherType?
    ensures ValidateEdge(src, r, dst) == Some(SourceNotAllowed) <==>
              !r.OtherRelation? && !src.OtherType? && !dst.OtherType? && src !in SpecOf(r).value.srcTypes
    ensures ValidateEdge(src, r, dst) != Some(NoTenant)
  {
  }

  /** What a journal entry may explain, be considered for, and affect. */
  lemma EntryTriples(src: NodeType, dst: NodeType)
    ensures Permitted(src, Explains, dst) <==> src.JournalEntry? && IsReviewed(dst)
    ensures Permitted(src, ConsideredFor, dst) <==> src.JournalEntry? && IsReviewed(dst)
    ensures Permitted(src, Affects, dst) <==> src.JournalEntry? && dst.Account?
  {
  }

  /** What supports a reconciliation, is found on an account, or belongs to a period. */
  lemma SupportTriples(src: NodeType, dst: NodeType)
    ensures Permitted(src, Supports, dst) <==> (src.Schedule? || src.Memo? || src.Evidence?) && dst.Reconciliation?
    ensures Permitted(src, FoundOn, dst) <==> src.Finding? && dst.Account?
    ensures Permitted(src, PartOf, dst) <==> (src.Finding? || src.Reconciliation?) && dst.Period?
  {
  }

  /** What may block a task, what a task covers, and what a memo documents. */
  lemma WorkTriples(src: NodeType, dst: NodeType)
    ensures Permitted(src, Blocks, dst) <==> (src.Finding? || src.Task?) && dst.Task?
    ensures Permitted(src, Covers, dst) <==> src.Task? && (dst.Reconciliation? || dst.Account?)
    ensures Permitted(src, Documents, dst) <==> src.Memo? && (dst.Reconciliation? || dst.Finding?)
  {
  }

  /** The catch-all joins any two known kinds. */
  lemma CatchAllTriples(src: NodeType, dst: NodeType)
    ensures Permitted(src, RelatesTo, dst) <==> !src.OtherType? && !dst.OtherType?
  {
  }

  /** Each of these relations has the inverse of its name; only the catch-all is its own. */
  lemma Inverses(r: Relation)
    ensures InverseOf(Explains) == Some(ExplainedBy) && InverseOf(ConsideredFor) == Some(Considered)
    ensures InverseOf(Affects) == Some(AffectedBy) && InverseOf(Supports) == Some(SupportedBy)
    ensures InverseOf(FoundOn) == Some(HasFinding) && InverseOf(PartOf) == Some(HasPart)
    ensures InverseOf(Blocks) == Some(BlockedBy) && InverseOf(Covers) == Some(CoveredBy)
    ensures InverseOf(Documents) == Some(DocumentedBy)
    ensures InverseOf(r) == Some(r) <==> r.RelatesTo?
  {
  }

  predicate IsReviewed(t: NodeType) {
    t.Reconciliation? || t.FluxVariance? || t.Finding?
  }

  /** A triple is permitted exactly when the same edge read from its other end is. */
  lemma PermittedFromBothEnds(src: NodeType, r: Relation, dst: NodeType)
    requires InverseOf(r).Some?
    ensures Permitted(src, r, dst) <==> Permitted(dst, InverseOf(r).value, src)
  {
    InverseSwapsSides(r, InverseOf(r).value);
  }
}
