// The browser's event list: refreshes, filter changes, "load more", session
// changes and delayed responses in any interleaving (frontend/src/app.ts).
// A step runs from one await to the next.
module BrowserEvents {
  import opened EventPaging
  import opened EventFetch

  datatype Filter = Filter(agent: string, status: string)

  datatype Shown = Shown(events: seq<string>, snapshot: string, hasMore: bool)

  datatype Purpose = Refresh | FirstPage

  datatype Status = Waiting | Fetched | Failed

  // A request in flight. `generation` and `number` are the session and the
  // request sequence it was started in.
  datatype Task =
    | Fetch(filter: Filter, generation: nat, number: nat, purpose: Purpose, target: int,
            got: seq<string>, snapshot: string, after: string, more: bool, status: Status)
    | Append(filter: Filter, generation: nat, number: nat, snapshot: string, after: string)

  // A snapshot the server has frozen, with the filter it was asked for.
  datatype Frozen = Frozen(filter: Filter, ids: seq<string>)

  // `chosen` is the filter in the page's controls. `frozen` stands for the
  // server and is not browser state.
  datatype Browser = Browser(
    authed: bool,
    generation: nat,
    lastRequest: nat,
    chosen: Filter,
    dataFilter: Filter,
    shown: Shown,
    loadingFirst: bool,
    loadingMore: bool,
    refreshing: bool,
    tasks: map<nat, Task>,
    frozen: map<string, Frozen>)

  const NOTHING := Shown([], "", false)
  const DEFAULT_FILTER := Filter("all", "ongoing")
  const START := Browser(false, 0, 0, DEFAULT_FILTER, DEFAULT_FILTER, NOTHING, false, false, false, map[], map[])

  // `ids` and `freshId` are the server's, for a request without a snapshot.
  datatype Step =
    | Choose(filter: Filter)
    | SessionLoaded(authed: bool)
    | LoggedIn
    | Expire
    | StartRefresh(t: nat)
    | StartFirstPage(t: nat, keepLoaded: bool)
    | StartAppend(t: nat)
    | Reply(t: nat, ids: seq<string>, freshId: string)
    | Fail(t: nat, unauthorized: bool)
    | Settle(t: nat)

  // ---- The server's pages ----

  predicate ListOk(ids: seq<string>) {
    Distinct(ids) && "" !in ids
  }

  // The page behind the first n ids.
  function PageOfList(ids: seq<string>, snapshot: string, n: nat, limit: nat): Page
    requires n <= |ids|
  {
    var end := Min(n + limit, |ids|);
    Page(ids[n..end], snapshot, |ids|, n, end < |ids|)
  }

  function TaskLimit(task: Task): nat {
    match task
    case Fetch(_, _, _, _, target, got, _, _, _, _) => RequestLimit(target, |got|)
    case Append(_, _, _, _, _) => EVENTS_PAGE_SIZE
  }

  // The request can be answered with a page; other requests fail.
  predicate Answerable(s: Browser, task: Task, ids: seq<string>, freshId: string) {
    if task.snapshot == "" then ListOk(ids) && freshId != "" && freshId !in s.frozen
    else
      && task.snapshot in s.frozen && s.frozen[task.snapshot].filter == task.filter
      && task.after in s.frozen[task.snapshot].ids
  }

  function FrozenAfter(s: Browser, task: Task, ids: seq<string>, freshId: string): map<string, Frozen> {
    if task.snapshot == "" then s.frozen[freshId := Frozen(task.filter, ids)] else s.frozen
  }

  function PageFor(s: Browser, task: Task, ids: seq<string>, freshId: string): Page
    requires Answerable(s, task, ids, freshId)
  {
    if task.snapshot == "" then PageOfList(ids, freshId, 0, TaskLimit(task))
    else
      var list := s.frozen[task.snapshot].ids;
      PageOfList(list, task.snapshot, Behind(list, task.after).value, TaskLimit(task))
  }

  // ---- Steps ----

  predicate InFlight(s: Browser, t: nat) {
    t in s.tasks && (s.tasks[t].Fetch? ==> s.tasks[t].status.Waiting?)
  }

  predicate MayAppend(s: Browser) {
    && s.authed && !s.loadingFirst && !s.loadingMore && s.dataFilter == s.chosen
    && s.shown.snapshot != "" && s.shown.events != [] && s.shown.hasMore
    && s.shown.events[|s.shown.events| - 1] != ""
  }

  predicate Enabled(s: Browser, step: Step) {
    match step
    case StartRefresh(t) => t !in s.tasks && s.authed && !s.refreshing
    case StartFirstPage(t, keepLoaded) => t !in s.tasks && s.authed
    case StartAppend(t) => t !in s.tasks && MayAppend(s)
    case Reply(t, ids, freshId) => InFlight(s, t) && Answerable(s, s.tasks[t], ids, freshId)
    case Fail(t, unauthorized) => InFlight(s, t)
    case Settle(t) => t in s.tasks && s.tasks[t].Fetch? && !s.tasks[t].status.Waiting?
    case _ => true
  }

  // The request is of this session and the latest one started.
  predicate Current(s: Browser, task: Task) {
    task.generation == s.generation && task.number == s.lastRequest
  }

  function ExpireSession(s: Browser): Browser {
    s.(authed := false, generation := s.generation + 1, lastRequest := s.lastRequest + 1,
       shown := NOTHING, dataFilter := DEFAULT_FILTER, loadingFirst := false, loadingMore := false)
  }

  function TargetFor(s: Browser, keep: bool): int {
    if keep then Max(EVENTS_PAGE_SIZE, |s.shown.events|) else EVENTS_PAGE_SIZE
  }

  function NewFetch(s: Browser, purpose: Purpose, target: int): Task {
    Fetch(s.chosen, s.generation, s.lastRequest + 1, purpose, target, [], "", "", false, Waiting)
  }

  // One round of the page loop.
  function Collected(s: Browser, task: Task, page: Page): Task
    requires task.Fetch?
  {
    if !s.authed || !Current(s, task) then task.(status := Failed)
    else
      var got := Unseen(task.got, page.events);
      var after := if page.events == [] then "" else page.events[|page.events| - 1];
      var ends := |got| >= task.target || !page.hasMore || page.events == [] || after == "" || page.snapshot == "";
      task.(got := got, snapshot := page.snapshot, after := after, more := page.hasMore,
            status := if ends then Fetched else Waiting)
  }

  function Appended(s: Browser, task: Task, page: Page): Browser {
    if s.authed && Current(s, task) && task.filter == s.chosen && page.snapshot == task.snapshot && s.dataFilter == task.filter
    then s.(shown := Shown(Unseen(s.shown.events, page.events), page.snapshot, page.hasMore))
    else s
  }

  function AppendDone(s: Browser, t: nat, task: Task): Browser {
    s.(tasks := s.tasks - {t}, loadingMore := if Current(s, task) then false else s.loadingMore)
  }

  function Failing(s: Browser, t: nat, task: Task): Browser {
    match task
    case Fetch(_, _, _, _, _, _, _, _, _, _) => s.(tasks := s.tasks[t := task.(status := Failed)])
    case Append(_, _, _, _, _) => AppendDone(s, t, task)
  }

  function Settled(s: Browser, t: nat, task: Task): Browser
    requires task.Fetch?
  {
    var gone := s.(tasks := s.tasks - {t});
    var written :=
      if s.authed && Current(s, task) && task.filter == s.chosen && task.status.Fetched?
      then gone.(shown := Shown(task.got, task.snapshot, task.more), dataFilter := task.filter, loadingFirst := false)
      else gone;
    match task.purpose
    case Refresh => written.(refreshing := false)
    case FirstPage => written.(loadingFirst := if Current(s, task) then false else written.loadingFirst)
  }

  function Next(s: Browser, step: Step): Browser
    requires Enabled(s, step)
  {
    match step
    case Choose(filter) => s.(chosen := filter)
    case SessionLoaded(authed) => s.(authed := authed)
    case LoggedIn => s.(generation := s.generation + 1, lastRequest := s.lastRequest + 1)
    case Expire => ExpireSession(s)
    case StartRefresh(t) =>
      s.(lastRequest := s.lastRequest + 1, loadingFirst := false, loadingMore := false, refreshing := true,
         tasks := s.tasks[t := NewFetch(s, Refresh, TargetFor(s, s.dataFilter == s.chosen))])
    case StartFirstPage(t, keepLoaded) =>
      var same := s.dataFilter == s.chosen;
      s.(lastRequest := s.lastRequest + 1, loadingFirst := true, loadingMore := false,
         shown := if same then s.shown else NOTHING, dataFilter := s.chosen,
         tasks := s.tasks[t := NewFetch(s, FirstPage, TargetFor(s, keepLoaded && same))])
    case StartAppend(t) =>
      s.(lastRequest := s.lastRequest + 1, loadingMore := true,
         tasks := s.tasks[t := Append(s.chosen, s.generation, s.lastRequest + 1, s.shown.snapshot,
                                      s.shown.events[|s.shown.events| - 1])])
    case Reply(t, ids, freshId) =>
      var task := s.tasks[t];
      var page := PageFor(s, task, ids, freshId);
      var answered := s.(frozen := FrozenAfter(s, task, ids, freshId));
      if task.Fetch? then answered.(tasks := s.tasks[t := Collected(s, task, page)])
      else AppendDone(Appended(answered, task, page), t, task)
    case Fail(t, unauthorized) =>
      var task := s.tasks[t];
      Failing(if unauthorized && task.generation == s.generation then ExpireSession(s) else s, t, task)
    case Settle(t) => Settled(s, t, s.tasks[t])
  }

  // ---- Invariant ----

  ghost predicate FrozenListsOk(s: Browser) {
    "" !in s.frozen && forall id | id in s.frozen :: ListOk(s.frozen[id].ids)
  }

  // `got` is a prefix of the snapshot, and `more` says whether it is proper.
  predicate PrefixOf(frozen: map<string, Frozen>, filter: Filter, got: seq<string>, snapshot: string, more: bool) {
    && snapshot in frozen && frozen[snapshot].filter == filter
    && got <= frozen[snapshot].ids && (more <==> |got| < |frozen[snapshot].ids|)
  }

  // The list on the page is empty, or a prefix of the snapshot it names, which
  // was taken for the filter the page calls the data's.
  predicate ShownOk(s: Browser) {
    s.shown == NOTHING || PrefixOf(s.frozen, s.dataFilter, s.shown.events, s.shown.snapshot, s.shown.hasMore)
  }

  predicate FetchOk(frozen: map<string, Frozen>, task: Task)
    requires task.Fetch?
  {
    match task.status
    case Failed => true
    case Fetched =>
      && PrefixOf(frozen, task.filter, task.got, task.snapshot, task.more)
      && |task.got| >= Min(task.target, |frozen[task.snapshot].ids|)
    case Waiting =>
      && |task.got| < task.target
      && if task.snapshot == "" then task.got == []
         else
           && PrefixOf(frozen, task.filter, task.got, task.snapshot, task.more)
           && task.got != [] && task.after == task.got[|task.got| - 1]
  }

  // An append that is still current extends the list on the page.
  predicate AppendOk(s: Browser, task: Task)
    requires task.Append?
  {
    Current(s, task) ==>
      && s.shown.snapshot == task.snapshot != "" && s.dataFilter == task.filter
      && s.shown.events != [] && s.shown.events[|s.shown.events| - 1] == task.after
  }

  predicate TaskOk(s: Browser, task: Task) {
    && task.number <= s.lastRequest && task.generation <= s.generation
    && if task.Fetch? then FetchOk(s.frozen, task) else AppendOk(s, task)
  }

  ghost predicate Inv(s: Browser) {
    && FrozenListsOk(s) && ShownOk(s)
    && (forall t | t in s.tasks :: TaskOk(s, s.tasks[t]))
    && (forall t, u | t in s.tasks && u in s.tasks && t != u :: s.tasks[t].number != s.tasks[u].number)
  }
}
