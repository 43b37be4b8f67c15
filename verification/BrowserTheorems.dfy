// What the event list shows under every interleaving.
module BrowserTheorems {
  import opened Text
  import opened EventPaging
  import opened EventFetch
  import opened BrowserEvents

  // ---- Each step keeps the invariant ----

  // The server freezes one more list.
  ghost predicate Extends(frozen: map<string, Frozen>, frozen': map<string, Frozen>) {
    forall id | id in frozen :: id in frozen' && frozen'[id] == frozen[id]
  }

  lemma ListExtends(s: Browser, task: Task, ids: seq<string>, freshId: string)
    requires FrozenListsOk(s) && Answerable(s, task, ids, freshId)
    ensures FrozenListsOk(s.(frozen := FrozenAfter(s, task, ids, freshId)))
    ensures Extends(s.frozen, FrozenAfter(s, task, ids, freshId))
  {
  }

  lemma ShownCarries(s: Browser, s': Browser)
    requires ShownOk(s) && Extends(s.frozen, s'.frozen) && s'.shown == s.shown && s'.dataFilter == s.dataFilter
    ensures ShownOk(s')
  {
  }

  // Steps of one running task that leave the shown list alone.
  lemma TaskStepKeeps(s: Browser, t: nat, s': Browser)
    requires Inv(s) && t in s.tasks && FrozenListsOk(s') && Extends(s.frozen, s'.frozen)
    requires s'.lastRequest == s.lastRequest && s'.generation == s.generation
    requires s'.shown == s.shown && s'.dataFilter == s.dataFilter
    requires s'.tasks == s.tasks - {t} || (t in s'.tasks && s'.tasks == s.tasks[t := s'.tasks[t]])
    requires t in s'.tasks ==> s'.tasks[t].number == s.tasks[t].number && TaskOk(s', s'.tasks[t])
    ensures Inv(s')
  {
    ShownCarries(s, s');
    forall u | u in s'.tasks && u != t
      ensures TaskOk(s', s'.tasks[u])
    {
      assert s'.tasks[u] == s.tasks[u];
    }
  }

  // A task that writes the list and ends: it was the current one, so no
  // other task is.
  lemma WriteKeeps(s: Browser, t: nat, s': Browser)
    requires Inv(s) && t in s.tasks && Current(s, s.tasks[t]) && FrozenListsOk(s') && Extends(s.frozen, s'.frozen)
    requires s'.lastRequest == s.lastRequest && s'.generation == s.generation
    requires s'.tasks == s.tasks - {t} && ShownOk(s')
    ensures Inv(s')
  {
    forall u | u in s'.tasks
      ensures TaskOk(s', s'.tasks[u])
    {
      assert s'.tasks[u] == s.tasks[u] && s.tasks[u].number != s.tasks[t].number;
    }
  }

  // ---- Pages ----

  // What a request has, and where its next page starts.
  predicate Has(s: Browser, task: Task, got: seq<string>) {
    if task.snapshot == "" then got == []
    else
      && task.snapshot in s.frozen && got <= s.frozen[task.snapshot].ids && got != []
      && task.after == got[|got| - 1]
  }

  lemma UnseenAll(list: seq<string>, snapshot: string, got: seq<string>, limit: nat)
    requires ListOk(list) && got <= list
    ensures var page := PageOfList(list, snapshot, |got|, limit); Unseen(got, page.events) == got + page.events
  {
    var n, end := |got|, Min(|got| + limit, |list|);
    assert list[..n] == got && list[..end] == got + list[n..end];
    UnseenOfSlice(list, n, end);
  }

  // With that page, `got` grows to a longer prefix.
  predicate Grows(list: seq<string>, got: seq<string>, page: Page) {
    && Unseen(got, page.events) == got + page.events <= list
    && (page.hasMore <==> |got| + |page.events| < |list|)
    && (page.hasMore ==> page.events != [])
    && (page.events != [] ==> page.events[|page.events| - 1] != "")
  }

  lemma PageGrows(list: seq<string>, snapshot: string, got: seq<string>, limit: nat)
    requires ListOk(list) && got <= list && limit >= 1
    ensures Grows(list, got, PageOfList(list, snapshot, |got|, limit))
  {
    var page := PageOfList(list, snapshot, |got|, limit);
    UnseenAll(list, snapshot, got, limit);
    if page.events != [] {
      assert page.events[|page.events| - 1] == list[|got| + |page.events| - 1];
    }
  }

  lemma CollectedOk(s: Browser, task: Task, ids: seq<string>, freshId: string)
    requires FrozenListsOk(s) && task.Fetch? && task.status.Waiting? && FetchOk(s.frozen, task)
    requires Answerable(s, task, ids, freshId)
    ensures FetchOk(FrozenAfter(s, task, ids, freshId), Collected(s, task, PageFor(s, task, ids, freshId)))
  {
    var page, frozen := PageFor(s, task, ids, freshId), FrozenAfter(s, task, ids, freshId);
    assert Has(s, task, task.got);
    PageGrows(frozen[page.snapshot].ids, page.snapshot, task.got, TaskLimit(task));
  }

  lemma AppendedOk(s: Browser, task: Task, ids: seq<string>, freshId: string)
    requires FrozenListsOk(s) && ShownOk(s) && task.Append? && Answerable(s, task, ids, freshId)
    requires AppendOk(s, task) && Current(s, task)
    ensures var s' := Appended(s.(frozen := FrozenAfter(s, task, ids, freshId)), task, PageFor(s, task, ids, freshId));
      ShownOk(s') && s.shown.events <= s'.shown.events && s'.shown.snapshot == s.shown.snapshot
  {
    var page := PageFor(s, task, ids, freshId);
    assert Has(s, task, s.shown.events);
    PageGrows(s.frozen[task.snapshot].ids, task.snapshot, s.shown.events, TaskLimit(task));
  }

  // These are the pages the server cuts from a frozen list.
  lemma ServerCutsThesePages(rows: Table, snapshot: Snapshot, n: nat, limit: nat)
    requires Runs.FrozenOk(rows, snapshot) && n <= |snapshot.ids| && limit >= 1
    ensures CutAfter(rows, snapshot.ids, snapshot.id, 0, if n == 0 then "" else snapshot.ids[n - 1], limit)
         == Ok(PageOfList(snapshot.ids, snapshot.id, n, limit))
  {
    Runs.PageBehind(rows, snapshot, 0, n, limit);
  }

  // ---- Steps ----

  lemma FetchReplyKeeps(s: Browser, t: nat, ids: seq<string>, freshId: string)
    requires Inv(s) && Enabled(s, Reply(t, ids, freshId)) && s.tasks[t].Fetch?
    ensures Inv(Next(s, Reply(t, ids, freshId)))
  {
    assert TaskOk(s, s.tasks[t]);
    ListExtends(s, s.tasks[t], ids, freshId);
    CollectedOk(s, s.tasks[t], ids, freshId);
    TaskStepKeeps(s, t, Next(s, Reply(t, ids, freshId)));
  }

  lemma AppendReplyKeeps(s: Browser, t: nat, ids: seq<string>, freshId: string)
    requires Inv(s) && Enabled(s, Reply(t, ids, freshId)) && s.tasks[t].Append?
    ensures Inv(Next(s, Reply(t, ids, freshId)))
  {
    var task, s' := s.tasks[t], Next(s, Reply(t, ids, freshId));
    assert TaskOk(s, task);
    ListExtends(s, task, ids, freshId);
    if Current(s, task) {
      AppendedOk(s, task, ids, freshId);
      WriteKeeps(s, t, s');
    } else {
      TaskStepKeeps(s, t, s');
    }
  }

  predicate SettleWrites(s: Browser, task: Task) {
    s.authed && Current(s, task) && task.filter == s.chosen && task.Fetch? && task.status.Fetched?
  }

  lemma SettleShows(s: Browser, t: nat)
    requires Inv(s) && Enabled(s, Settle(t))
    ensures ShownOk(Next(s, Settle(t)))
  {
    assert TaskOk(s, s.tasks[t]);
  }

  lemma SettleKeeps(s: Browser, t: nat)
    requires Inv(s) && Enabled(s, Settle(t))
    ensures Inv(Next(s, Settle(t)))
  {
    SettleShows(s, t);
    if SettleWrites(s, s.tasks[t]) {
      WriteKeeps(s, t, Next(s, Settle(t)));
    } else {
      TaskStepKeeps(s, t, Next(s, Settle(t)));
    }
  }

  lemma FailKeeps(s: Browser, t: nat, unauthorized: bool)
    requires Inv(s) && Enabled(s, Fail(t, unauthorized))
    ensures Inv(Next(s, Fail(t, unauthorized)))
  {
    var task := s.tasks[t];
    assert TaskOk(s, task);
    if unauthorized && task.generation == s.generation {
      TaskStepKeeps(ExpireSession(s), t, Next(s, Fail(t, unauthorized)));
    } else {
      TaskStepKeeps(s, t, Next(s, Fail(t, unauthorized)));
    }
  }

  lemma StartStepKeeps(s: Browser, step: Step, t: nat)
    requires Inv(s) && Enabled(s, step)
    requires step.StartRefresh? || step.StartFirstPage? || step.StartAppend?
    requires t == step.t
    ensures Inv(Next(s, step))
  {
  }

  lemma StepKeeps(s: Browser, step: Step)
    requires Inv(s) && Enabled(s, step)
    ensures Inv(Next(s, step)) && Extends(s.frozen, Next(s, step).frozen)
  {
    var s' := Next(s, step);
    match step
    case Choose(filter) =>
    case SessionLoaded(authed) =>
    case LoggedIn =>
    case Expire =>
    case StartRefresh(t) => StartStepKeeps(s, step, t);
    case StartFirstPage(t, keepLoaded) => StartStepKeeps(s, step, t);
    case StartAppend(t) => StartStepKeeps(s, step, t);
    case Reply(t, ids, freshId) =>
      ListExtends(s, s.tasks[t], ids, freshId);
      if s.tasks[t].Fetch? {
        FetchReplyKeeps(s, t, ids, freshId);
      } else {
        AppendReplyKeeps(s, t, ids, freshId);
      }
    case Fail(t, unauthorized) => FailKeeps(s, t, unauthorized);
    case Settle(t) => SettleKeeps(s, t);
  }

  // ---- Whole runs ----

  ghost predicate Run(states: seq<Browser>, steps: seq<Step>) {
    && |states| == |steps| + 1
    && states[0] == START
    && forall i | 0 <= i < |steps| :: StepAt(states, steps, i)
  }

  ghost predicate StepAt(states: seq<Browser>, steps: seq<Step>, i: int) {
    0 <= i < |steps| < |states| && Enabled(states[i], steps[i]) && states[i + 1] == Next(states[i], steps[i])
  }

  lemma {:induction false} RunKeeps(states: seq<Browser>, steps: seq<Step>, n: nat)
    requires Run(states, steps) && n < |states|
    ensures Inv(states[n])
  {
    if n > 0 {
      RunKeeps(states, steps, n - 1);
      assert StepAt(states, steps, n - 1);
      StepKeeps(states[n - 1], steps[n - 1]);
    }
  }

  // What the page shows is always a prefix of the one snapshot it names, taken
  // for the filter the page calls the data's; "more" says what is left of it.
  lemma ShownIsPrefixOfOneSnapshot(states: seq<Browser>, steps: seq<Step>, n: nat)
    requires Run(states, steps) && n < |states|
    ensures var s := states[n];
      s.shown != NOTHING ==>
        && s.shown.snapshot in s.frozen && s.frozen[s.shown.snapshot].filter == s.dataFilter
        && s.shown.events <= s.frozen[s.shown.snapshot].ids
        && (s.shown.hasMore <==> |s.shown.events| < |s.frozen[s.shown.snapshot].ids|)
  {
    RunKeeps(states, steps, n);
  }

  // The list changes from s to s' because of the latest request started: it
  // is of this session, for the filter still chosen, and nobody is logged out.
  ghost predicate LatestWrites(s: Browser, t: nat, s': Browser) {
    && t in s.tasks && s.authed && s.tasks[t].generation == s.generation && s.tasks[t].number == s.lastRequest
    && s.tasks[t].filter == s.chosen == s'.dataFilter
    && forall u | u in s.tasks && u != t :: s.tasks[u].number < s.lastRequest
  }

  lemma WriteIsLatest(s: Browser, step: Step)
    requires Inv(s) && Enabled(s, step) && (step.Reply? || step.Settle?) && Next(s, step).shown != s.shown
    ensures LatestWrites(s, step.t, Next(s, step))
  {
  }

  // Apart from being cleared, the list changes only by a response to the
  // latest request of the running session.
  lemma OnlyTheLatestRequestWrites(states: seq<Browser>, steps: seq<Step>, n: nat)
    requires Run(states, steps) && n < |steps| && states[n + 1].shown != states[n].shown
    ensures states[n + 1].shown == NOTHING
         || ((steps[n].Reply? || steps[n].Settle?) && LatestWrites(states[n], steps[n].t, states[n + 1]))
  {
    RunKeeps(states, steps, n);
    assert StepAt(states, steps, n);
    StepWrites(states[n], steps[n]);
  }

  lemma OtherStepsClear(s: Browser, step: Step)
    requires Enabled(s, step) && !step.Reply? && !step.Settle?
    ensures Next(s, step).shown == s.shown || Next(s, step).shown == NOTHING
  {
  }

  lemma StepWrites(s: Browser, step: Step)
    requires Inv(s) && Enabled(s, step) && Next(s, step).shown != s.shown
    ensures Next(s, step).shown == NOTHING || ((step.Reply? || step.Settle?) && LatestWrites(s, step.t, Next(s, step)))
  {
    if step.Reply? || step.Settle? {
      WriteIsLatest(s, step);
    } else {
      OtherStepsClear(s, step);
    }
  }

  // "Load more" only extends the list, within the same snapshot.
  lemma AppendExtends(states: seq<Browser>, steps: seq<Step>, n: nat)
    requires Run(states, steps) && n < |steps| && steps[n].Reply? && steps[n].t in states[n].tasks
    requires states[n].tasks[steps[n].t].Append?
    ensures states[n].shown.events <= states[n + 1].shown.events
    ensures states[n].shown.snapshot == states[n + 1].shown.snapshot
  {
    RunKeeps(states, steps, n);
    assert StepAt(states, steps, n);
    var s, task := states[n], states[n].tasks[steps[n].t];
    assert TaskOk(s, task);
    if Current(s, task) {
      AppendedOk(s, task, steps[n].ids, steps[n].freshId);
    }
  }

  // A refresh or reload that is written shows at least as many events as it
  // set out for, or all there are.
  lemma ReloadKeepsLength(states: seq<Browser>, steps: seq<Step>, n: nat)
    requires Run(states, steps) && n < |steps| && steps[n].Settle?
    ensures steps[n].t in states[n].tasks && states[n].tasks[steps[n].t].Fetch?
    ensures var task, s' := states[n].tasks[steps[n].t], states[n + 1];
      s'.shown != states[n].shown ==>
        s'.shown.snapshot in s'.frozen
        && |s'.shown.events| >= Min(task.target, |s'.frozen[s'.shown.snapshot].ids|)
  {
    RunKeeps(states, steps, n);
    assert StepAt(states, steps, n);
    assert TaskOk(states[n], states[n].tasks[steps[n].t]);
  }

  // After a login or an expired session no request of before is current, and
  // an expired session leaves nothing on the page.
  lemma SessionOutdates(s: Browser, step: Step, t: nat)
    requires Inv(s) && (step.LoggedIn? || step.Expire?) && t in s.tasks
    ensures var s' := Next(s, step);
      && t in s'.tasks && !Current(s', s'.tasks[t])
      && (step.Expire? ==> !s'.authed && s'.shown.events == [] && !s'.loadingFirst && !s'.loadingMore)
  {
    assert TaskOk(s, s.tasks[t]);
  }

  // ---- Undisturbed requests ----

  // A page that is not outdated brings a fetch forward by as many events as it
  // asked for, or to the end of the list.
  predicate Advances(task: Task, task': Task, list: seq<string>, snapshot: string)
    requires task.Fetch?
  {
    var end := Min(|task.got| + Min(500, Max(50, task.target - |task.got|)), |list|);
    && 0 <= end && task'.Fetch? && task'.got == list[..end] && task'.snapshot == snapshot
    && (task'.status.Fetched? <==> end >= task.target || end == |list|)
    && (task'.status.Waiting? <==> end < task.target && end < |list|)
    && (task'.more <==> end < |list|)
  }

  lemma CollectedAdvances(s: Browser, task: Task, list: seq<string>, snapshot: string)
    requires task.Fetch? && task.status.Waiting? && s.authed && Current(s, task)
    requires ListOk(list) && snapshot != "" && task.got <= list
    ensures var n := |task.got|;
      var end := Min(n + RequestLimit(task.target, n), |list|);
      Advances(task, Collected(s, task, Page(list[n..end], snapshot, |list|, n, end < |list|)), list, snapshot)
  {
    var n := |task.got|;
    var end := Min(n + RequestLimit(task.target, n), |list|);
    var page := Page(list[n..end], snapshot, |list|, n, end < |list|);
    assert n <= end && (n == end ==> end == |list|);
    assert Unseen(task.got, page.events) == list[..end] by {
      UnseenOfSlice(list, n, end);
      assert task.got == list[..n];
    }
    assert page.events != [] ==> page.events[|page.events| - 1] in list;
    var task' := Collected(s, task, page);
    assert task'.got == list[..end];
  }

  lemma PageContinues(s: Browser, task: Task, ids: seq<string>, freshId: string)
    requires FrozenListsOk(s) && task.Fetch? && task.status.Waiting? && FetchOk(s.frozen, task) && Answerable(s, task, ids, freshId)
    ensures var list := if task.snapshot == "" then ids else s.frozen[task.snapshot].ids;
      var n := |task.got|;
      n <= |list| && task.got == list[..n] && ListOk(list) &&
      var end := Min(n + RequestLimit(task.target, n), |list|);
      PageFor(s, task, ids, freshId) == Page(list[n..end], if task.snapshot == "" then freshId else task.snapshot, |list|, n, end < |list|)
  {
    if task.snapshot != "" {
      BehindLast(s.frozen[task.snapshot].ids, |task.got|);
    }
  }

  lemma ReplyAdvances(s: Browser, t: nat, ids: seq<string>, freshId: string)
    requires Inv(s) && Enabled(s, Reply(t, ids, freshId)) && s.tasks[t].Fetch? && s.authed && Current(s, s.tasks[t])
    ensures var task, after := s.tasks[t], Next(s, Reply(t, ids, freshId));
      && t in after.tasks
      && Advances(task, after.tasks[t], if task.snapshot == "" then ids else s.frozen[task.snapshot].ids,
                  if task.snapshot == "" then freshId else task.snapshot)
  {
    var task := s.tasks[t];
    assert TaskOk(s, task);
    var list := if task.snapshot == "" then ids else s.frozen[task.snapshot].ids;
    assert task.got <= list && ListOk(list);
    PageContinues(s, task, ids, freshId);
    CollectedAdvances(s, task, list, if task.snapshot == "" then freshId else task.snapshot);
  }

  lemma {:induction false} BehindLast(list: seq<string>, n: nat)
    requires Distinct(list) && 0 < n <= |list|
    ensures Behind(list, list[n - 1]) == Some(n)
  {
    if n > 1 {
      assert list[0] != list[n - 1];
      assert list[1..][n - 2] == list[n - 1];
      forall i, j | 0 <= i < j < |list[1..]| ensures list[1..][i] != list[1..][j] {
        assert list[i + 1] != list[j + 1];
      }
      BehindLast(list[1..], n - 1);
    }
  }

  // A first page that nothing interferes with is shown.
  lemma UndisturbedLoad(s: Browser, t: nat, ids: seq<string>, freshId: string)
    requires Inv(s) && s.authed && t !in s.tasks && ListOk(ids) && freshId != "" && freshId !in s.frozen
    ensures var s1 := Next(s, StartFirstPage(t, false));
      && Enabled(s1, Reply(t, ids, freshId))
      && var s2 := Next(s1, Reply(t, ids, freshId));
         && Enabled(s2, Settle(t))
         && var s3 := Next(s2, Settle(t));
            && s3.shown == Shown(ids[..Min(50, |ids|)], freshId, |ids| > 50)
            && s3.dataFilter == s.chosen && !s3.loadingFirst && t !in s3.tasks
  {
    var s1 := Next(s, StartFirstPage(t, false));
    StepKeeps(s, StartFirstPage(t, false));
    ReplyAdvances(s1, t, ids, freshId);
  }

  // A refresh that nothing interferes with shows the list anew, at its length.
  lemma UndisturbedRefresh(s: Browser, t: nat, ids: seq<string>, freshId: string)
    requires Inv(s) && s.authed && !s.refreshing && t !in s.tasks && ListOk(ids) && freshId != "" && freshId !in s.frozen
    requires s.dataFilter == s.chosen && |s.shown.events| <= 500
    ensures var s1 := Next(s, StartRefresh(t));
      && s1.refreshing && Enabled(s1, Reply(t, ids, freshId))
      && var s2 := Next(s1, Reply(t, ids, freshId));
         && Enabled(s2, Settle(t))
         && var s3 := Next(s2, Settle(t));
            && s3.shown == Shown(ids[..Min(Max(50, |s.shown.events|), |ids|)], freshId, |ids| > Max(50, |s.shown.events|))
            && s3.dataFilter == s.chosen && !s3.refreshing && t !in s3.tasks
  {
    var s1 := Next(s, StartRefresh(t));
    StepKeeps(s, StartRefresh(t));
    ReplyAdvances(s1, t, ids, freshId);
  }

  // Loading more that nothing interferes with adds the next fifty events.
  lemma UndisturbedAppend(s: Browser, t: nat, ids: seq<string>, freshId: string)
    requires Inv(s) && Enabled(s, StartAppend(t))
    ensures s.shown.snapshot in s.frozen
    ensures var s1, list, n := Next(s, StartAppend(t)), s.frozen[s.shown.snapshot].ids, |s.shown.events|;
      && s1.loadingMore && Enabled(s1, Reply(t, ids, freshId))
      && var s2 := Next(s1, Reply(t, ids, freshId));
         && s2.shown == Shown(list[..Min(n + 50, |list|)], s.shown.snapshot, n + 50 < |list|)
         && !s2.loadingMore && t !in s2.tasks
  {
    var list, n := s.frozen[s.shown.snapshot].ids, |s.shown.events|;
    assert s.shown.events == list[..n];
    assert list[n - 1] in list;
    BehindLast(list, n);
    UnseenOfSlice(list, n, Min(n + 50, |list|));
  }
}
