/**
 What the Flask-to-Beanie migration means for one document at a time: the simple
 form that the bulk writes of `Migration` are proved to compute.
 */
module Conversion {
  import opened Wrappers
  import opened Ids
  import opened Mongo

  /** What one run knows besides the documents it rewrites. */
  datatype Env = Env(
    teams: map<Value, Value>,              // user_id -> team uuid
    defaultTeam: Option<Text>,           // --default-team-id
    kbUuid: map<Id, Value>,                // knowledge base _id -> uuid
    searchSetUuid: map<Id, Value>,         // search set _id -> uuid
    now: Value,                            // the clock
    parseOid: (Id, Value) -> Option<Id>)   // ObjectId(identifier), per request

  predicate Given(team: Option<Text>) {
    team.Some? && team.value != Text.Empty
  }

  /** `extract_oid`. */
  function ExtractOid(v: Value): Option<Id> {
    match v
    case Oid(i) => Some(i)
    case Ref(t) => Some(t)
    case Sub(d) =>
      if d.dollarId.Some? then d.dollarId
      else (match d.inner
            case Some(AsDBRef(t)) => Some(t)
            case Some(AsDict(x)) => x
            case None => None)
    case _ => None
  }

  // --- Phase 4a: space -> team_id ---------------------------------------------

  /** The collections whose documents get a team. */
  predicate SpaceScoped(n: Name) {
    n.SmartDocument? || n.SearchSet? || n.Workflow? || n.ChatConversation? || n.KnowledgeBases?
  }

  predicate DropsSpace(n: Name) {
    SpaceScoped(n) || n.SmartFolder? || n.ActivityEvent?
  }

  /** The team a document without one is given, if any. */
  function TeamFor(e: Env, d: Doc): Option<Value> {
    if UserId in d && d[UserId] in e.teams then Some(e.teams[d[UserId]])
    else if Given(e.defaultTeam) then Some(Str(e.defaultTeam.value))
    else None
  }

  function WithTeam(e: Env, d: Doc): Doc {
    if TeamId !in d && TeamFor(e, d).Some? then d[TeamId := TeamFor(e, d).value] else d
  }

  function SpaceDoc(e: Env, n: Name, d: Doc): Doc {
    if SpaceScoped(n) then WithTeam(e, d) - {Space}
    else if DropsSpace(n) then d - {Space}
    else d
  }

  // --- Phase 4b: new field defaults -------------------------------------------

  const EMPTY_DICT := Sub(SubDoc(None, false, None, None, false))

  const USER_DEFAULTS: Doc := map[
    IsDemoUser := Bool(false), DemoExpiresAt := Null, DemoStatus := Null, OrganizationId := Null]
  const TEAM_DEFAULTS: Doc := map[OrganizationId := Null]
  const SMART_DOCUMENT_DEFAULTS: Doc := map[
    Classification := Null, ClassificationConfidence := Null, ClassifiedAt := Null,
    ClassifiedBy := Null, RetentionHold := Bool(false), RetentionHoldReason := Null,
    ScheduledDeletionAt := Null, SoftDeleted := Bool(false), SoftDeletedAt := Null,
    TokenCount := Int(0), NumPages := Int(0), UserId := Str(Text.Unknown), RawText := Str(Text.Empty)]
  const SEARCH_SET_DEFAULTS: Doc := map[
    ItemOrder := List([]), Domain := Null, CrossFieldRules := List([]), SetType := Str(Text.Extraction)]
  const SEARCH_SET_ITEM_DEFAULTS: Doc := map[IsOptional := Bool(false), EnumValues := List([])]
  const WORKFLOW_DEFAULTS: Doc := map[ValidationPlan := List([]), ValidationInputs := List([])]
  const WORKFLOW_RESULT_DEFAULTS: Doc := map[
    PausedAtStepIndex := Null, ApprovalRequestId := Null, BatchId := Null, DocumentTitle := Null]
  const CHAT_MESSAGE_DEFAULTS: Doc := map[Thinking := Null, ThinkingDuration := Null]
  const SYSTEM_CONFIG_DEFAULTS: Doc := map[
    QualityConfig := EMPTY_DICT, ClassificationConfig := EMPTY_DICT, RetentionConfig := EMPTY_DICT,
    DefaultTeamId := Null]
  const GRAPH_SUBSCRIPTION_DEFAULTS: Doc := map[ClientState := Null, TeamId := Null]
  const VERIFIED_ITEM_METADATA_DEFAULTS: Doc := map[
    OrganizationIds := List([]), QualityScore := Null, QualityTier := Null, QualityGrade := Null,
    LastValidatedAt := Null, ValidationRunCount := Int(0)]

  function ExtractionQualityDefaults(now: Value): Doc {
    map[UserId := Null, SearchSetUuid := Null, CreatedAt := now]
  }

  function FixedDefaults(n: Name): Doc {
    match n
    case User => USER_DEFAULTS
    case Team => TEAM_DEFAULTS
    case SmartDocument => SMART_DOCUMENT_DEFAULTS
    case SearchSet => SEARCH_SET_DEFAULTS
    case SearchSetItem => SEARCH_SET_ITEM_DEFAULTS
    case Workflow => WORKFLOW_DEFAULTS
    case WorkflowResult => WORKFLOW_RESULT_DEFAULTS
    case ChatMessage => CHAT_MESSAGE_DEFAULTS
    case SystemConfig => SYSTEM_CONFIG_DEFAULTS
    case GraphSubscription => GRAPH_SUBSCRIPTION_DEFAULTS
    case VerifiedItemMetadata => VERIFIED_ITEM_METADATA_DEFAULTS
    case _ => map[]
  }

  function Defaults(n: Name, now: Value): Doc {
    if n.ExtractionQualityRecord? then ExtractionQualityDefaults(now) else FixedDefaults(n)
  }

  function CopyField(from: Field, to: Field, d: Doc): Doc {
    if to !in d && from in d then d[to := d[from]] else d
  }

  function Obsolete(n: Name): set<Field> {
    match n
    case SearchSetItem => {SpaceId}
    case WorkflowResult => {TriggerEvent}
    case _ => {}
  }

  function DefaultsDoc(e: Env, n: Name, d: Doc): Doc {
    var filled := Defaults(n, e.now) + d;
    (if n.SmartDocument? then CopyField(Path, DownloadPath, filled) else filled) - Obsolete(n)
  }

  // --- Phase 4c: reference conversions ----------------------------------------

  const UNSUPPORTED_KINDS: set<Value> := {Str(Text.Prompt), Str(Text.Formatter)}
  const UNSUPPORTED_CLASSES: set<Text> := {Text.SearchSetItemClass}

  const UNSUPPORTED_ITEM: Cond := Either(In(Kind, UNSUPPORTED_KINDS), SubClsIn(Obj, UNSUPPORTED_CLASSES))
  const UNSUPPORTED_REQUEST: Cond := Where(In(ItemKind, UNSUPPORTED_KINDS))

  /** The documents that phase 4c deletes. */
  predicate Unsupported(n: Name, d: Doc) {
    (n.LibraryItem? && Matches(d, UNSUPPORTED_ITEM)) ||
    (n.VerificationRequest? && Matches(d, UNSUPPORTED_REQUEST))
  }

  /** The kind of the item that a library entry's `obj` refers to. */
  function ItemKindOf(d: Doc): Option<Text>
    requires Obj in d
  {
    var cls := if d[Obj].Sub? && d[Obj].doc.cls.Some? then d[Obj].doc.cls.value else Text.Empty;
    if cls == Text.WorkflowClass then Some(Text.WorkflowKind)
    else if cls == Text.SearchSetClass then Some(Text.SearchSetKind)
    else if Kind !in d then None
    else if d[Kind] == Str(Text.OldSearchSetKind) then Some(Text.SearchSetKind)
    else if d[Kind] == Str(Text.WorkflowKind) then Some(Text.WorkflowKind)
    else if d[Kind] == Str(Text.SearchSetKind) then Some(Text.SearchSetKind)
    else if d[Kind] == Str(Text.KnowledgeBaseKind) then Some(Text.KnowledgeBaseKind)
    else None
  }

  function ConvertItem(d: Doc): Doc {
    if Obj in d && ItemId !in d && Truthy(d[Obj]) && ExtractOid(d[Obj]).Some? && ItemKindOf(d).Some?
    then d + map[ItemId := Oid(ExtractOid(d[Obj]).value), Kind := Str(ItemKindOf(d).value)]
    else d
  }

  function Normalized(f: Field, d: Doc): Doc {
    if f in d && d[f] == Str(Text.OldSearchSetKind) then d[f := Str(Text.SearchSetKind)] else d
  }

  const LIBRARY_ITEM_DEFAULTS: Doc := map[Pinned := Bool(false), Favorited := Bool(false), LastUsedAt := Null]

  function LibraryItemDoc(d: Doc): Doc {
    CopyField(AddedAt, CreatedAt, LIBRARY_ITEM_DEFAULTS + Normalized(Kind, ConvertItem(d))) - {Obj, AddedAt}
  }

  function KbUuidOf(e: Env, kb: Id): Value {
    if kb in e.kbUuid then e.kbUuid[kb] else Str(Text.Empty)
  }

  function ConvertSource(e: Env, d: Doc): Doc {
    if KnowledgeBase in d && KnowledgeBaseUuid !in d && ExtractOid(d[KnowledgeBase]).Some?
    then d[KnowledgeBaseUuid := KbUuidOf(e, ExtractOid(d[KnowledgeBase]).value)]
    else d
  }

  const KB_SOURCE_DEFAULTS: Doc := map[
    CrawlEnabled := Bool(false), MaxCrawlPages := Int(5), ParentSourceUuid := Null, CrawledUrls := Null]

  function KbSourceDoc(e: Env, d: Doc): Doc {
    KB_SOURCE_DEFAULTS + ConvertSource(e, d) - {KnowledgeBase, Document}
  }

  /** The search set whose uuid is `identifier`, first in natural order. */
  function SearchSetByUuid(uuids: map<Id, Value>, identifier: Value): (r: Option<Id>)
  {
    var s := set i | i in uuids && uuids[i] == identifier;
    if s == {} then None else Some(Least(s))
  }

  /** The ObjectId that a request's `item_identifier` stands for. */
  function Resolve(e: Env, i: Id, d: Doc): Option<Id>
    requires ItemIdentifier in d
  {
    if e.parseOid(i, d[ItemIdentifier]).Some? then e.parseOid(i, d[ItemIdentifier])
    else if ItemKind in d && d[ItemKind] in {Str(Text.OldSearchSetKind), Str(Text.SearchSetKind)}
    then SearchSetByUuid(e.searchSetUuid, d[ItemIdentifier])
    else None
  }

  function ConvertRequest(e: Env, i: Id, d: Doc): Doc {
    if ItemIdentifier in d && ItemId !in d && Resolve(e, i, d).Some?
    then d[ItemId := Oid(Resolve(e, i, d).value)]
    else d
  }

  const REQUEST_DEFAULTS: Doc := map[
    ValidationSnapshot := Null, ValidationScore := Null, ValidationTier := Null,
    ReturnGuidance := Null, ReviewerUserId := Null, ReviewerNotes := Null]

  function RequestDoc(e: Env, i: Id, d: Doc): Doc {
    REQUEST_DEFAULTS + Normalized(ItemKind, ConvertRequest(e, i, d))
      - {ItemIdentifier, LibraryItemRef, ItemTitle}
  }

  /** `str(extract_oid(i) or i)`. */
  function ShowItem(v: Value): Value {
    if ExtractOid(v).Some? then TextOf(Oid(ExtractOid(v).value))
    else if v.Str? then v
    else TextOf(v)
  }

  function ItemsOf(v: Value): seq<Value> {
    if v.List? then v.items else []
  }

  function ShowItems(items: seq<Value>): seq<Value> {
    seq(|items|, k requires 0 <= k < |items| => ShowItem(items[k]))
  }

  function ConvertCollection(d: Doc): Doc {
    if Items in d && ItemIds !in d then d[ItemIds := List(ShowItems(ItemsOf(d[Items])))] else d
  }

  const COLLECTION_DEFAULTS: Doc := map[Featured := Bool(false)]

  function CollectionDoc(d: Doc): Doc {
    COLLECTION_DEFAULTS + ConvertCollection(d) - {Items}
  }

  function ItemMetadataDoc(d: Doc): Doc {
    Normalized(ItemKind, CopyField(ItemIdentifier, ItemId, d)) - {ItemIdentifier}
  }

  function RefsDoc(e: Env, n: Name, i: Id, d: Doc): Doc {
    match n
    case LibraryItem => LibraryItemDoc(d)
    case KnowledgeBaseSources => KbSourceDoc(e, d)
    case VerificationRequest => RequestDoc(e, i, d)
    case VerifiedCollection => CollectionDoc(d)
    case VerifiedItemMetadata => ItemMetadataDoc(d)
    case _ => d
  }

  // --- Phase 4d: field removals and DBRef cleanup ------------------------------

  function DbRefFields(n: Name): set<Field> {
    match n
    case User => {CurrentTeam}
    case TeamMembership => {Field.Team}
    case TeamInvite => {Field.Team}
    case WorkflowResult => {WorkflowRef}
    case WorkflowTriggerEvent => {WorkflowRef, WorkflowResultRef, WorkItemRef}
    case Library => {Field.Team}
    case LibraryFolder => {Field.Team}
    case _ => {}
  }

  predicate Convertible(v: Value) {
    HasDollarRef(v) && ExtractOid(v).Some?
  }

  function Dereferenced(fs: set<Field>, d: Doc): Doc {
    map f | f in d :: if f in fs && Convertible(d[f]) then Oid(ExtractOid(d[f]).value) else d[f]
  }

  function CleanupDoc(n: Name, d: Doc): Doc {
    if n.KnowledgeBases? then d - {Sources} else Dereferenced(DbRefFields(n), d)
  }

  // --- The whole run -----------------------------------------------------------

  /** The phases, in the order they run. */
  datatype Stage = StripCls | Spaces | NewFields | References | Cleanup

  /** One live document as phase 4c finds it. */
  function BeforeReferences(e: Env, n: Name, d: Doc): Doc {
    DefaultsDoc(e, n, SpaceDoc(e, n, d - {Cls}))
  }

  /** One live document after every phase. */
  function MigrateDoc(e: Env, n: Name, i: Id, d: Doc): Doc {
    CleanupDoc(n, RefsDoc(e, n, i, BeforeReferences(e, n, d)))
  }
}
