/**
 A document store as the migration scripts see it: collections of documents that
 are changed in place by bulk writes, and a database object that replays every
 write it has accepted since its last checkpoint.
 */
module Mongo {
  import opened Wrappers
  import opened Ids

  /** Strings. Each one that a script compares with or writes has a constructor of its
      own; `Word` is any other. */
  datatype Text =
    | Empty | Unknown | System | Extraction
    | Prompt | Formatter
    | WorkflowKind | SearchSetKind | OldSearchSetKind | KnowledgeBaseKind
    | WorkflowClass | SearchSetClass | SearchSetItemClass
    | VerifiedScope | OwnerRole | MyTeam
    | Word(letters: string)

  /** What `_ref` holds inside a generic reference. */
  datatype InnerRef = AsDBRef(target: Id) | AsDict(dollarId: Option<Id>)

  /** A sub-document, described by the keys the scripts look at. */
  datatype SubDoc = SubDoc(
    cls: Option<Text>,      // "_cls"
    dollarRef: bool,          // "$ref" is present
    dollarId: Option<Id>,     // "$id"
    inner: Option<InnerRef>,  // "_ref"
    more: bool)               // any other key

  datatype Value =
    | Null
    | Bool(b: bool)
    | Int(n: int)
    | Str(s: Text)
    | Oid(id: Id)
    | Ref(target: Id)         // a DBRef
    | Sub(doc: SubDoc)
    | List(items: seq<Value>)
    | TextOf(shown: Value)    // the string form of a value that is not a string

  datatype Field =
    | Cls | TeamId | Space | UserId | CurrentTeam | Uuid | OwnerUserId | Team | Scope
    | Name | Role | CreatedAt | OrganizationId
    | IsDemoUser | DemoExpiresAt | DemoStatus
    | Classification | ClassificationConfidence | ClassifiedAt | ClassifiedBy
    | RetentionHold | RetentionHoldReason | ScheduledDeletionAt | SoftDeleted | SoftDeletedAt
    | TokenCount | NumPages | RawText | DownloadPath | Path
    | ItemOrder | Domain | CrossFieldRules | SetType | IsOptional | EnumValues | SpaceId
    | ValidationPlan | ValidationInputs
    | PausedAtStepIndex | ApprovalRequestId | BatchId | DocumentTitle | TriggerEvent
    | Thinking | ThinkingDuration
    | QualityConfig | ClassificationConfig | RetentionConfig | DefaultTeamId
    | ClientState
    | OrganizationIds | QualityScore | QualityTier | QualityGrade | LastValidatedAt | ValidationRunCount
    | SearchSetUuid
    | Kind | Obj | ItemId | Pinned | Favorited | LastUsedAt | AddedAt
    | KnowledgeBase | KnowledgeBaseUuid | Document
    | CrawlEnabled | MaxCrawlPages | ParentSourceUuid | CrawledUrls
    | ItemKind | ItemIdentifier | LibraryItemRef | ItemTitle
    | ValidationSnapshot | ValidationScore | ValidationTier | ReturnGuidance | ReviewerUserId | ReviewerNotes
    | Items | ItemIds | Featured | Sources
    | WorkflowRef | WorkflowResultRef | WorkItemRef
    | OtherField(text: string)

  type Doc = map<Field, Value>

  type Docs = map<Id, Doc>

  /** Python's truth value of a stored value. */
  predicate Truthy(v: Value) {
    match v
    case Null => false
    case Bool(b) => b
    case Int(n) => n != 0
    case Str(s) => s != Empty
    case List(items) => items != []
    case Sub(d) => d != SubDoc(None, false, None, None, false)
    case _ => true
  }

  /** A condition on one field. */
  datatype Test =
    | Anything
    | Has(f: Field)
    | Lacks(f: Field)
    | HasAny(fs: set<Field>)
    | Is(f: Field, v: Value)
    | In(f: Field, vs: set<Value>)
    | SubClsIn(f: Field, names: set<Text>)
    | PointsByRef(f: Field)
    | NullOrLacks(f: Field)

  /** The query conditions the scripts use. */
  datatype Cond = Where(t: Test) | Both(a: Test, b: Test) | Either(a: Test, b: Test)

  predicate HasDollarRef(v: Value) {
    v.Ref? || (v.Sub? && v.doc.dollarRef)
  }

  predicate Holds(d: Doc, t: Test) {
    match t
    case Anything => true
    case Has(f) => f in d
    case Lacks(f) => f !in d
    case HasAny(fs) => fs * d.Keys != {}
    case Is(f, v) => f in d && d[f] == v
    case In(f, vs) => f in d && d[f] in vs
    case SubClsIn(f, names) => f in d && d[f].Sub? && d[f].doc.cls.Some? && d[f].doc.cls.value in names
    case PointsByRef(f) => f in d && HasDollarRef(d[f])
    case NullOrLacks(f) => f !in d || d[f] == Null
  }

  predicate Matches(d: Doc, c: Cond) {
    match c
    case Where(t) => Holds(d, t)
    case Both(a, b) => Holds(d, a) && Holds(d, b)
    case Either(a, b) => Holds(d, a) || Holds(d, b)
  }

  /** A `$set` / `$unset` pair. */
  datatype Change = Change(sets: Doc, unsets: set<Field>)

  function Changed(d: Doc, ch: Change): Doc {
    d + ch.sets - ch.unsets
  }

  function Selected(docs: Docs, c: Cond): (s: set<Id>)
    ensures forall i :: i in s <==> i in docs && Matches(docs[i], c)
  {
    set i | i in docs && Matches(docs[i], c)
  }

  /** `find_one`: the first match in natural order. */
  function FindOne(docs: Docs, c: Cond): (r: Option<Id>)
    ensures r.Some? ==> r.value in docs && Matches(docs[r.value], c)
                        && forall i :: i in docs && Matches(docs[i], c) ==> r.value.rank <= i.rank
    ensures r.None? ==> forall i :: i in docs ==> !Matches(docs[i], c)
  {
    var s := Selected(docs, c);
    if s == {} then None else Some(Least(s))
  }

  // ---------------------------------------------------------------------------
  // Collections
  // ---------------------------------------------------------------------------

  /** Every collection a script names; `Unlisted` is any other application collection. */
  datatype Name =
    | User | Team | TeamMembership | TeamInvite
    | SmartDocument | SmartFolder
    | SearchSet | SearchSetItem
    | Workflow | WorkflowStep | WorkflowStepTask | WorkflowAttachment
    | WorkflowResult | WorkflowArtifacts | WorkflowTriggerEvent
    | ChatMessage | ChatConversation
    | FileAttachment | UrlAttachment
    | Library | LibraryItem | LibraryFolder
    | KnowledgeBases | KnowledgeBaseSources
    | SystemConfig | ActivityEvent
    | GraphSubscription | M365AuditEntry
    | IntakeConfigs | WorkItems
    | VerificationRequest | VerifiedItemMetadata | VerifiedCollection
    | ExtractionQualityRecord | ValidationRuns | QualityAlerts
    | Automation | ApprovalRequest | ChatFeedback
    | DemoApplication | PostExperienceResponse
    | Notification | ExtractionTestCases | CertificationProgress
    | AuditLog | AdminAuditLog | Organization | UserModelConfig
    | KbTestQueries | KbSuggestions
    // names used before the migration
    | WorkflowTriggerEvents | GraphSubscriptions | M365AuditLog
    | Unlisted(text: string)

  /** A live collection, a timestamped backup of one, or one whose name starts
      with "_" or "system.". */
  datatype Coll = Live(name: Name) | Backup(of: Name, stamp: nat) | Internal(text: string)

  type Colls = map<Coll, Docs>

  /** The new name of a collection that phase 2 renames. */
  function NewName(n: Name): Option<Name> {
    match n
    case WorkflowTriggerEvents => Some(WorkflowTriggerEvent)
    case GraphSubscriptions => Some(GraphSubscription)
    case M365AuditLog => Some(M365AuditEntry)
    case _ => None
  }

  function DocsIn(db: Colls, c: Coll): Docs {
    if c in db then db[c] else map[]
  }

  // ---------------------------------------------------------------------------
  // Writes
  // ---------------------------------------------------------------------------

  datatype Write =
    | UpdateMany(coll: Coll, cond: Cond, change: Change)
    | UpdateOne(coll: Coll, id: Id, change: Change)
    | BulkSet(coll: Coll, sets: map<Id, Doc>)
    | DeleteMany(coll: Coll, cond: Cond)
    | Rename(coll: Coll, to: Coll)

  function UpdateDoc(d: Doc, cond: Cond, ch: Change): Doc {
    if Matches(d, cond) then Changed(d, ch) else d
  }

  function UpdateDocs(docs: Docs, cond: Cond, ch: Change): Docs {
    map i | i in docs :: UpdateDoc(docs[i], cond, ch)
  }

  function BulkSetDoc(d: Doc, sets: map<Id, Doc>, i: Id): Doc {
    if i in sets then d + sets[i] else d
  }

  function BulkSetDocs(docs: Docs, sets: map<Id, Doc>): Docs {
    map i | i in docs :: BulkSetDoc(docs[i], sets, i)
  }

  function DeleteDocs(docs: Docs, cond: Cond): Docs {
    map i | i in docs && !Matches(docs[i], cond) :: docs[i]
  }

  function Apply(db: Colls, w: Write): Colls {
    match w
    case UpdateMany(c, cond, ch) =>
      if c in db then db[c := UpdateDocs(db[c], cond, ch)] else db
    case UpdateOne(c, id, ch) =>
      if c in db && id in db[c] then db[c := db[c][id := Changed(db[c][id], ch)]] else db
    case BulkSet(c, sets) =>
      if c in db then db[c := BulkSetDocs(db[c], sets)] else db
    case DeleteMany(c, cond) =>
      if c in db then db[c := DeleteDocs(db[c], cond)] else db
    case Rename(c, to) =>
      if c in db && to !in db then (db - {c})[to := db[c]] else db
  }

  function Replay(db: Colls, log: seq<Write>): Colls {
    if log == [] then db else Apply(Replay(db, log[..|log| - 1]), log[|log| - 1])
  }

  /** Writes the migration may issue once the backups exist: they stay inside the
      live collections, and rename only along the list of new names. */
  predicate Scoped(w: Write) {
    w.coll.Live? && (w.Rename? ==> w.to.Live? && NewName(w.coll.name) == Some(w.to.name))
  }

  predicate ScopedLog(log: seq<Write>) {
    forall k :: 0 <= k < |log| ==> Scoped(log[k])
  }

  /** A database that remembers, for the proofs only, the state at its last
      checkpoint and every scoped write accepted since. */
  class Database {
    var colls: Colls
    ghost var origin: Colls
    ghost var log: seq<Write>

    ghost predicate Valid()
      reads this
    {
      colls == Replay(origin, log) && ScopedLog(log)
    }

    constructor (start: Colls)
      ensures Valid() && colls == start
    {
      colls, origin, log := start, start, [];
    }

    method Accept(w: Write)
      requires Valid() && Scoped(w)
      modifies this
      ensures Valid() && colls == Apply(old(colls), w)
      ensures origin == old(origin) && log == old(log) + [w]
    {
      colls := Apply(colls, w);
      log := log + [w];
      assert log[..|log| - 1] == old(log);
    }

    method Checkpoint()
      modifies this
      ensures Valid() && colls == old(colls) && origin == colls && log == []
    {
      origin, log := colls, [];
    }

    method InsertMany(c: Coll, docs: Docs)
      requires DocsIn(colls, c).Keys !! docs.Keys
      modifies this
      ensures Valid() && log == [] && colls == old(colls)[c := DocsIn(old(colls), c) + docs]
    {
      colls := colls[c := DocsIn(colls, c) + docs];
      Checkpoint();
    }

    method Drop(c: Coll)
      modifies this
      ensures Valid() && log == [] && colls == old(colls) - {c}
    {
      colls := colls - {c};
      Checkpoint();
    }

    method RenameBackup(from: Coll, to: Coll)
      requires from in colls && to !in colls
      modifies this
      ensures Valid() && log == [] && colls == (old(colls) - {from})[to := old(colls)[from]]
    {
      colls := (colls - {from})[to := colls[from]];
      Checkpoint();
    }

    method Count(c: Coll, cond: Cond) returns (n: nat)
      ensures n == |Selected(DocsIn(colls, c), cond)|
    {
      n := |Selected(DocsIn(colls, c), cond)|;
    }
  }
}
