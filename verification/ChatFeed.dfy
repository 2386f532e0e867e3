/**
 The client replica of the chat: what each response does to the state the feed displays.

 Responses arrive in any order. Two devices keep the replica sound: a request context
 captured at send time and compared on arrival, and a watermark per message that only a
 newer projection may replace.
 */
module ChatFeed {
  import opened Basics
  import opened ChatTables

  const MAX_SAFE_INTEGER := 9_007_199_254_740_991
  const MAX_CHANGE_PAGES := 10
  const MAX_CONSECUTIVE_RESETS := 2

  // ----- projections -----

  datatype Dto = Dto(
    id: int, authorTag: string, role: string, sourceIP: string, body: Option<string>, status: Status,
    createdAt: int, withdrawnAt: Option<int>, deletedAt: Option<int>)

  function ProjectedBody(row: Row, admin: bool): Option<string> {
    if StatusOf(row) == Deleted || row.body.None? then None
    else if StatusOf(row) == Withdrawn && !admin then None
    else row.body
  }

  /** The server's view of a row for an ordinary or an admin endpoint. */
  function Project(id: int, row: Row, admin: bool): Dto {
    Dto(id, row.authorTag, row.authorRole, row.sourceIP, ProjectedBody(row, admin), StatusOf(row),
        row.createdAt, row.withdrawnAt, row.deletedAt)
  }

  /** The client's own redaction on top of whatever the server sent. */
  function Normalize(dto: Dto, admin: bool): Dto {
    if dto.status == Deleted || (!admin && dto.status == Withdrawn) then dto.(body := None) else dto
  }

  // ----- watermarks -----

  datatype Source = FromMutation | FromHistory | FromChanges

  function Priority(source: Source): nat {
    match source
    case FromMutation => 0
    case FromHistory => 1
    case FromChanges => 2
  }

  datatype Watermark = Watermark(generation: int, at: int, source: Source)

  predicate IsNewer(current: Watermark, incoming: Watermark) {
    && current.generation == incoming.generation
    && if current.at != incoming.at then incoming.at > current.at
       else Priority(incoming.source) > Priority(current.source)
  }

  /**
   Watermarks of one generation stand in a strict order: by sequence number, and at the same number
   a mutation's before the history's before the changes'. Those of different generations in none.
   */
  lemma NewerIsAnOrder(a: Watermark, b: Watermark)
    ensures IsNewer(a, b) ==> a.generation == b.generation && !IsNewer(b, a)
    ensures a.generation == b.generation && a != b ==> IsNewer(a, b) || IsNewer(b, a)
    ensures a.generation == b.generation && a.at < b.at ==> IsNewer(a, b)
    ensures a.generation == b.generation && a.at == b.at ==>
              (IsNewer(a, b) <==>
                 || (a.source.FromMutation? && b.source.FromHistory?)
                 || (!a.source.FromChanges? && b.source.FromChanges?))
  {
  }

  datatype Versioned = Versioned(dto: Dto, mark: Watermark)

  // ----- the state of the feed -----

  datatype Binding = Binding(subjectKey: string, admin: bool, active: bool)

  /** `Reading` is the page loop of one sync; `inFlight` while it awaits a page. */
  datatype Sync = Idle | Reading(id: int, pagesLeft: int, inFlight: bool)

  datatype View = View(
    messages: map<int, Dto>,
    marks: map<int, Watermark>,
    generation: Option<int>,
    cursor: int,
    latest: int,
    nextBeforeId: Option<int>,
    hasMore: bool,
    initialized: bool,
    loadingOlder: bool,
    resetBlocked: bool,
    resetStreak: int,
    revision: int,
    binding: Binding,
    blocked: bool,
    disposed: bool,
    historyRequestId: int,
    olderRequestId: int,
    syncCount: int,
    sync: Sync)

  datatype Context = Context(revision: int, generation: Option<int>, admin: bool, subjectKey: string)

  datatype HistoryReply = HistoryReply(
    messages: seq<Dto>, nextBeforeId: Option<int>, hasMore: bool, latest: int, generation: int)

  datatype ChangeDto = ChangeDto(at: int, dto: Dto)

  datatype ChangesReply = ChangesReply(
    changes: seq<ChangeDto>, nextAfterSeq: int, hasMore: bool, latest: int, generation: int)

  datatype MutationReply = MutationReply(dto: Dto, eventSeq: int)

  predicate SafeSeq(n: int) {
    0 <= n <= MAX_SAFE_INTEGER
  }

  function FreshView(binding: Binding): View {
    View(map[], map[], None, 0, 0, None, false, false, false, false, 0, 0, binding, false, false, 0, 0, 0, Idle)
  }

  predicate Ready(v: View) {
    !v.disposed && v.binding.active && !v.blocked
  }

  function Capture(v: View): Context {
    Context(v.revision, v.generation, v.binding.admin, v.binding.subjectKey)
  }

  predicate ContextIsCurrent(v: View, c: Context) {
    && !v.disposed
    && c.revision == v.revision
    && c.generation == v.generation
    && c.admin == v.binding.admin
    && c.subjectKey == v.binding.subjectKey
    && v.binding.active
    && !v.blocked
  }

  // ----- merging -----

  predicate Accepts(v: View, item: Versioned) {
    && v.generation == Some(item.mark.generation)
    && (item.dto.id in v.marks ==> IsNewer(v.marks[item.dto.id], item.mark))
  }

  function ApplyOne(v: View, item: Versioned, admin: bool): View {
    if Accepts(v, item) then
      v.(messages := v.messages[item.dto.id := Normalize(item.dto, admin)],
         marks := v.marks[item.dto.id := item.mark])
    else v
  }

  function ApplyAll(v: View, items: seq<Versioned>, admin: bool): View {
    if items == [] then v
    else ApplyOne(ApplyAll(v, items[..|items| - 1], admin), items[|items| - 1], admin)
  }

  function HistoryItems(messages: seq<Dto>, generation: int, at: int): (r: seq<Versioned>)
    ensures |r| == |messages|
  {
    seq(|messages|, k requires 0 <= k < |messages| => Versioned(messages[k], Watermark(generation, at, FromHistory)))
  }

  function ChangeItems(changes: seq<ChangeDto>, generation: int): (r: seq<Versioned>)
    ensures |r| == |changes|
  {
    seq(|changes|, k requires 0 <= k < |changes| =>
      Versioned(changes[k].dto, Watermark(generation, changes[k].at, FromChanges)))
  }

  function MutationItems(mutations: seq<MutationReply>, generation: int): (r: seq<Versioned>)
    ensures |r| == |mutations|
  {
    seq(|mutations|, k requires 0 <= k < |mutations| =>
      Versioned(mutations[k].dto, Watermark(generation, mutations[k].eventSeq, FromMutation)))
  }

  // ----- resets -----

  function Invalidate(v: View, blocked: bool): View {
    View(map[], map[], None, 0, 0, None, false, false, false, false, v.resetStreak, v.revision + 1, v.binding,
         blocked, v.disposed, v.historyRequestId + 1, v.olderRequestId + 1, v.syncCount, Idle)
  }

  function ClearForSubjectChange(v: View, blocked: bool): View {
    Invalidate(v, blocked).(resetStreak := 0)
  }

  /** After too many resets in a row the feed stops and waits for the user; otherwise history is reloaded. */
  function HandleCursorReset(v: View): View {
    if v.resetStreak >= MAX_CONSECUTIVE_RESETS then Invalidate(v, false).(resetBlocked := true)
    else Invalidate(v, false).(resetStreak := v.resetStreak + 1)
  }

  function Rebind(v: View, next: Binding): View {
    if v.disposed || (v.binding == next && !v.blocked) then v
    else ClearForSubjectChange(v, false).(binding := next)
  }

  function ReloadAfterSyncFailure(v: View): View {
    if !Ready(v) then v else Invalidate(v, false).(resetStreak := 0)
  }

  function Dispose(v: View): View {
    if v.disposed then v else
    v.(disposed := true, revision := v.revision + 1, messages := map[], marks := map[], latest := 0, sync := Idle)
  }

  // ----- sending -----

  function StartHistory(v: View): View {
    if !Ready(v) then v else v.(historyRequestId := v.historyRequestId + 1)
  }

  predicate MayLoadOlder(v: View) {
    !v.disposed && !v.loadingOlder && v.initialized && v.hasMore && v.nextBeforeId.Some?
  }

  function StartOlder(v: View): View {
    if !MayLoadOlder(v) then v else v.(olderRequestId := v.olderRequestId + 1, loadingOlder := true)
  }

  predicate MaySync(v: View) {
    Ready(v) && v.initialized && v.generation.Some? && !v.resetBlocked && v.sync.Idle?
  }

  function StartSync(v: View): View {
    if !MaySync(v) then v
    else v.(syncCount := v.syncCount + 1, sync := Reading(v.syncCount + 1, MAX_CHANGE_PAGES, false))
  }

  predicate MayRequestPage(v: View) {
    v.sync.Reading? && !v.sync.inFlight && v.generation.Some?
  }

  function RequestPage(v: View): View {
    if !MayRequestPage(v) then v else v.(sync := v.sync.(inFlight := true))
  }

  /** The sync was aborted, or its request failed for a reason other than a lost cursor. */
  function AbortSync(v: View): View {
    v.(sync := Idle)
  }

  // ----- receiving -----

  function DeliverHistory(v: View, c: Context, requestId: int, reply: HistoryReply): View {
    if requestId != v.historyRequestId || !ContextIsCurrent(v, c) then v
    else if !(1 <= reply.generation <= MAX_SAFE_INTEGER) || !SafeSeq(reply.latest) then v.(initialized := false)
    else if c.generation.Some? && reply.generation != c.generation.value then HandleCursorReset(v)
    else
      var items := HistoryItems(reply.messages, reply.generation, reply.latest);
      var w := if c.generation.None?
               then ApplyAll(v.(generation := Some(reply.generation), messages := map[], marks := map[]), items,
                   c.admin)
                      .(cursor := reply.latest, latest := reply.latest)
               else ApplyAll(v, items, c.admin).(latest := Max(v.latest, reply.latest));
      w.(nextBeforeId := reply.nextBeforeId, hasMore := reply.hasMore, initialized := true)
  }

  function DeliverOlder(v: View, c: Context, requestId: int, reply: HistoryReply): View {
    if requestId != v.olderRequestId then v
    else if !ContextIsCurrent(v, c) then v.(loadingOlder := false)
    else if c.generation != Some(reply.generation) then HandleCursorReset(v)
    else if !SafeSeq(reply.latest) then HandleCursorReset(v)
    else
      ApplyAll(v, HistoryItems(reply.messages, reply.generation, reply.latest), c.admin)
        .(latest := Max(v.latest, reply.latest),
          nextBeforeId := reply.nextBeforeId, hasMore := reply.hasMore, loadingOlder := false)
  }

  function InsertChange(x: ChangeDto, s: seq<ChangeDto>): seq<ChangeDto> {
    if s == [] || x.at <= s[0].at then [x] + s else [s[0]] + InsertChange(x, s[1..])
  }

  function SortChanges(s: seq<ChangeDto>): seq<ChangeDto> {
    if s == [] then [] else InsertChange(s[0], SortChanges(s[1..]))
  }

  predicate PageBoundsOk(c: Context, pageCursor: int, reply: ChangesReply) {
    && c.generation == Some(reply.generation)
    && SafeSeq(reply.nextAfterSeq) && SafeSeq(reply.latest)
    && pageCursor <= reply.nextAfterSeq <= reply.latest
    && !(reply.hasMore && reply.nextAfterSeq == pageCursor)
  }

  predicate PageEntriesOk(ordered: seq<ChangeDto>, pageCursor: int, nextAfterSeq: int) {
    forall k | 0 <= k < |ordered| ::
      && SafeSeq(ordered[k].at) && pageCursor < ordered[k].at <= nextAfterSeq
      && (k > 0 ==> ordered[k - 1].at < ordered[k].at)
  }

  /** validatedChangePage: the page is merged only if it passes; otherwise the cursor counts as lost. */
  predicate PageAccepted(c: Context, pageCursor: int, reply: ChangesReply) {
    PageBoundsOk(c, pageCursor, reply) && PageEntriesOk(SortChanges(reply.changes), pageCursor, reply.nextAfterSeq)
  }

  predicate AwaitsPage(v: View, c: Context, syncId: int) {
    v.sync.Reading? && v.sync.id == syncId && v.sync.inFlight && ContextIsCurrent(v, c) && c.generation.Some?
  }

  function DeliverChanges(v: View, c: Context, syncId: int, pageCursor: int, reply: ChangesReply): View {
    if !AwaitsPage(v, c, syncId) then v
    else if !PageAccepted(c, pageCursor, reply) then HandleCursorReset(v)
    else
      var w := ApplyAll(v, ChangeItems(SortChanges(reply.changes), c.generation.value), c.admin)
                 .(cursor := reply.nextAfterSeq, latest := Max(v.latest, reply.latest));
      if reply.hasMore && v.sync.pagesLeft > 1
      then w.(sync := Reading(syncId, v.sync.pagesLeft - 1, false))
      else w.(sync := Idle, resetStreak := 0)
  }

  function DeliverCursorLost(v: View, c: Context, syncId: int): View {
    if !AwaitsPage(v, c, syncId) then v else HandleCursorReset(v)
  }

  /** One mutation response, or the responses of a batch; event sequences never move the cursor. */
  function DeliverMutations(v: View, c: Context, mutations: seq<MutationReply>): View {
    if !ContextIsCurrent(v, c) || c.generation.None? then v
    else if exists k | 0 <= k < |mutations| :: !SafeSeq(mutations[k].eventSeq) then v
    else
      ApplyAll(v, MutationItems(mutations, c.generation.value), c.admin)
        .(latest := MaxEventSeq(v.latest, mutations))
  }

  function MaxEventSeq(latest: int, mutations: seq<MutationReply>): int {
    if mutations == [] then latest
    else Max(MaxEventSeq(latest, mutations[..|mutations| - 1]), mutations[|mutations| - 1].eventSeq)
  }

  /** A clear that succeeded, or was refused because the data had moved on, replaces the whole projection. */
  function DeliverCleared(v: View, c: Context): View {
    if !ContextIsCurrent(v, c) then v else Invalidate(v, false)
  }

  /** The session subject changed, or an admin endpoint answered 403. */
  function DeliverSubjectLost(v: View, c: Context): View {
    if !ContextIsCurrent(v, c) then v else ClearForSubjectChange(v, true)
  }

  // ----- facts about merging -----

  /** How a mark may move: stay, or be replaced by a newer one of the same generation. */
  ghost predicate MarkAdvances(current: Watermark, next: Watermark) {
    next == current || IsNewer(current, next)
  }

  ghost predicate WellFormed(v: View) {
    && v.messages.Keys == v.marks.Keys
    && (forall id | id in v.marks :: v.generation == Some(v.marks[id].generation))
    && (forall id | id in v.messages :: v.messages[id].id == id)
  }

  ghost predicate FromItem(w: View, items: seq<Versioned>, admin: bool, id: int)
    requires id in w.messages && id in w.marks
  {
    exists k :: 0 <= k < |items| && Shows(w, items[k], admin, id)
  }

  ghost predicate Shows(w: View, item: Versioned, admin: bool, id: int)
    requires id in w.messages && id in w.marks
  {
    item.dto.id == id && item.mark == w.marks[id] && w.messages[id] == Normalize(item.dto, admin)
  }

  ghost predicate Covered(w: View, item: Versioned) {
    item.dto.id in w.marks && AtLeastAsNew(item.mark, w.marks[item.dto.id])
  }

  /** The mark in place is at least as new as `a`. */
  ghost predicate AtLeastAsNew(a: Watermark, b: Watermark) {
    && a.generation == b.generation
    && (a.at < b.at || (a.at == b.at && Priority(a.source) <= Priority(b.source)))
  }

  /** Nothing is lost, marks only advance, and a message changes only together with its mark. */
  ghost predicate Kept(v: View, w: View) {
    forall id | id in v.messages :: id in w.messages && id in v.marks && id in w.marks
      && MarkAdvances(v.marks[id], w.marks[id]) && (w.marks[id] == v.marks[id] ==> w.messages[id] == v.messages[id])
  }

  /** Whatever is new comes from an item. */
  ghost predicate Sourced(v: View, w: View, items: seq<Versioned>, admin: bool) {
    forall id | id in w.messages && id in w.marks && (id !in v.marks || w.marks[id] != v.marks[id]) ::
      FromItem(w, items, admin, id)
  }

  /** Every item of the current generation ends up shown or dominated. */
  ghost predicate AllCovered(v: View, w: View, items: seq<Versioned>) {
    forall k | 0 <= k < |items| && v.generation == Some(items[k].mark.generation) :: Covered(w, items[k])
  }

  ghost predicate OnlyMessages(v: View, w: View) {
    w == v.(messages := w.messages, marks := w.marks)
  }

  /** What merging a response does, whatever the order of its items and of earlier responses. */
  lemma {:induction false} ApplyAllEffect(v: View, items: seq<Versioned>, admin: bool)
    requires WellFormed(v)
    ensures var w := ApplyAll(v, items, admin);
            && WellFormed(w) && OnlyMessages(v, w)
            && Kept(v, w) && Sourced(v, w, items, admin) && AllCovered(v, w, items)
  {
    if items != [] {
      var front, last := items[..|items| - 1], items[|items| - 1];
      var u := ApplyAll(v, front, admin);
      ApplyAllEffect(v, front, admin);
      assert items == front + [last];
      ApplyOneKeeps(v, u, last, admin);
      ApplyOneSourced(v, u, front, last, admin);
      ApplyOneCovers(v, u, front, last, admin);
    }
  }

  lemma ApplyOneKeeps(v: View, u: View, last: Versioned, admin: bool)
    requires WellFormed(v) && WellFormed(u) && OnlyMessages(v, u) && Kept(v, u)
    ensures var w := ApplyOne(u, last, admin); WellFormed(w) && OnlyMessages(v, w) && Kept(v, w)
  {
  }

  lemma StillFromItem(u: View, w: View, front: seq<Versioned>, last: Versioned, admin: bool, id: int)
    requires id in u.messages && id in u.marks && FromItem(u, front, admin, id)
    requires id in w.messages && id in w.marks && w.messages[id] == u.messages[id] && w.marks[id] == u.marks[id]
    ensures FromItem(w, front + [last], admin, id)
  {
    var k :| 0 <= k < |front| && Shows(u, front[k], admin, id);
    assert Shows(w, (front + [last])[k], admin, id);
  }

  lemma ApplyOneAt(u: View, last: Versioned, admin: bool, id: int)
    ensures var w := ApplyOne(u, last, admin);
            if Accepts(u, last) && id == last.dto.id
            then id in w.messages && id in w.marks && Shows(w, last, admin, id) && w.marks[id] == last.mark
            else && (id in w.messages <==> id in u.messages) && (id in w.marks <==> id in u.marks)
                 && (id in w.messages ==> w.messages[id] == u.messages[id])
                 && (id in w.marks ==> w.marks[id] == u.marks[id])
  {
  }

  lemma ApplyOneSourced(v: View, u: View, front: seq<Versioned>, last: Versioned, admin: bool)
    requires WellFormed(u) && Sourced(v, u, front, admin)
    ensures Sourced(v, ApplyOne(u, last, admin), front + [last], admin)
  {
    hide ApplyOne, Accepts, Shows;
    var w := ApplyOne(u, last, admin);
    var items := front + [last];
    forall id | id in w.messages && id in w.marks && (id !in v.marks || w.marks[id] != v.marks[id])
      ensures FromItem(w, items, admin, id)
    {
      ApplyOneAt(u, last, admin, id);
      if Accepts(u, last) && id == last.dto.id {
        assert Shows(w, items[|front|], admin, id);
      } else {
        StillFromItem(u, w, front, last, admin, id);
      }
    }
  }

  lemma ApplyOneCovers(v: View, u: View, front: seq<Versioned>, last: Versioned, admin: bool)
    requires WellFormed(u) && OnlyMessages(v, u) && AllCovered(v, u, front)
    ensures AllCovered(v, ApplyOne(u, last, admin), front + [last])
  {
    var w := ApplyOne(u, last, admin);
    var items := front + [last];
    forall k | 0 <= k < |items| && v.generation == Some(items[k].mark.generation)
      ensures Covered(w, items[k])
    {
      if k < |front| {
        assert items[k] == front[k] && Covered(u, front[k]);
      }
      StaysCovered(u, items[k], last, admin);
    }
  }

  lemma StaysCovered(u: View, item: Versioned, last: Versioned, admin: bool)
    requires WellFormed(u) && u.generation == Some(item.mark.generation)
    requires Covered(u, item) || item == last
    ensures Covered(ApplyOne(u, last, admin), item)
  {
  }

  lemma {:induction false} SortedStays(s: seq<ChangeDto>)
    requires forall i, j | 0 <= i < j < |s| :: s[i].at < s[j].at
    ensures SortChanges(s) == s
  {
    if s != [] {
      SortedStays(s[1..]);
      assert |s| > 1 ==> s[1..][0] == s[1];
    }
  }

  /** Redacting twice is redacting once: a response cannot show more than the server projected. */
  lemma NormalizeProject(id: int, row: Row, admin: bool)
    ensures Normalize(Project(id, row, admin), admin) == Project(id, row, admin)
  {
  }
}
