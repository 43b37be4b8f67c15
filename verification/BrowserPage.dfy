// The event list's variables and the code between two awaits
// (frontend/src/app.ts), step by step the machine of BrowserEvents.
module BrowserPage {
  import opened EventPaging
  import opened EventFetch
  import opened BrowserEvents

  class EventList {
    var authed: bool
    var sessionGeneration: nat
    var eventsRequestSeq: nat
    var currentEventFilter: Filter
    var eventsDataFilter: Filter
    var events: Shown
    var eventsLoadingFirstPage: bool
    var eventsLoadingMore: bool
    var refreshing: bool
    // The suspended calls, with their local variables.
    var tasks: map<nat, Task>
    ghost var frozen: map<string, Frozen>

    ghost function State(): Browser
      reads this
    {
      Browser(authed, sessionGeneration, eventsRequestSeq, currentEventFilter, eventsDataFilter, events,
              eventsLoadingFirstPage, eventsLoadingMore, refreshing, tasks, frozen)
    }

    constructor ()
      ensures State() == START
    {
      authed, sessionGeneration, eventsRequestSeq := false, 0, 0;
      currentEventFilter, eventsDataFilter, events := DEFAULT_FILTER, DEFAULT_FILTER, NOTHING;
      eventsLoadingFirstPage, eventsLoadingMore, refreshing := false, false, false;
      tasks, frozen := map[], map[];
    }

    method Expire()
      modifies this
      ensures State() == ExpireSession(old(State()))
    {
      authed := false;
      sessionGeneration := sessionGeneration + 1;
      eventsRequestSeq := eventsRequestSeq + 1;
      events := NOTHING;
      eventsDataFilter := DEFAULT_FILTER;
      eventsLoadingFirstPage := false;
      eventsLoadingMore := false;
    }

    method TakeOverEventListLoading() returns (number: nat)
      modifies this`eventsRequestSeq, this`eventsLoadingMore, this`eventsLoadingFirstPage
      ensures number == eventsRequestSeq == old(eventsRequestSeq) + 1 && !eventsLoadingMore && !eventsLoadingFirstPage
    {
      eventsRequestSeq := eventsRequestSeq + 1;
      number := eventsRequestSeq;
      eventsLoadingMore := false;
      eventsLoadingFirstPage := false;
    }

    method Refresh(t: nat)
      requires t !in tasks
      modifies this
      ensures State() == if Enabled(old(State()), StartRefresh(t)) then Next(old(State()), StartRefresh(t)) else old(State())
    {
      if !authed || refreshing {
        return;
      }
      var filter := currentEventFilter;
      var target := if eventsDataFilter == filter then Max(EVENTS_PAGE_SIZE, |events.events|) else EVENTS_PAGE_SIZE;
      var number := TakeOverEventListLoading();
      refreshing := true;
      tasks := tasks[t := Fetch(filter, sessionGeneration, number, BrowserEvents.Refresh, target, [], "", "", false, Waiting)];
    }

    method LoadFirstPage(t: nat, keepLoadedWanted: bool)
      requires t !in tasks
      modifies this
      ensures State() == if old(authed) then Next(old(State()), StartFirstPage(t, keepLoadedWanted)) else old(State())
    {
      if !authed {
        return;
      }
      var filter := currentEventFilter;
      var keepLoaded := keepLoadedWanted && eventsDataFilter == filter;
      var target := if keepLoaded then Max(EVENTS_PAGE_SIZE, |events.events|) else EVENTS_PAGE_SIZE;
      var number := TakeOverEventListLoading();
      eventsLoadingFirstPage := true;
      if !keepLoaded && eventsDataFilter != filter {
        events := NOTHING;
        eventsDataFilter := filter;
      }
      tasks := tasks[t := Fetch(filter, sessionGeneration, number, FirstPage, target, [], "", "", false, Waiting)];
    }

    method LoadMore(t: nat)
      requires t !in tasks
      modifies this
      ensures State() == if MayAppend(old(State())) then Next(old(State()), StartAppend(t)) else old(State())
    {
      if !authed || eventsLoadingFirstPage || eventsLoadingMore || eventsDataFilter != currentEventFilter {
        return;
      }
      var after := if events.events == [] then "" else events.events[|events.events| - 1];
      if events.snapshot == "" || after == "" || !events.hasMore {
        return;
      }
      eventsRequestSeq := eventsRequestSeq + 1;
      eventsLoadingMore := true;
      tasks := tasks[t := Append(currentEventFilter, sessionGeneration, eventsRequestSeq, events.snapshot, after)];
    }

    // A page reaches the loop of fetchEventPages.
    method PageFetched(t: nat, page: Page, ghost ids: seq<string>, ghost freshId: string)
      requires Enabled(State(), Reply(t, ids, freshId)) && tasks[t].Fetch? && page == PageFor(State(), tasks[t], ids, freshId)
      modifies this
      ensures State() == Next(old(State()), Reply(t, ids, freshId))
    {
      var task := tasks[t];
      frozen := FrozenAfter(State(), task, ids, freshId);
      if !authed || sessionGeneration != task.generation || task.number != eventsRequestSeq {
        tasks := tasks[t := task.(status := Failed)];
        return;
      }
      var got := CollectPage(task.got, page.events);
      var after := if |page.events| == 0 then "" else page.events[|page.events| - 1];
      var ends := |got| >= task.target || !page.hasMore || |page.events| == 0 || after == "" || page.snapshot == "";
      tasks := tasks[t := task.(got := got, snapshot := page.snapshot, after := after, more := page.hasMore,
                                status := if ends then Fetched else Waiting)];
    }

    // A page reaches "load more".
    method PageAppended(t: nat, page: Page, ghost ids: seq<string>, ghost freshId: string)
      requires Enabled(State(), Reply(t, ids, freshId)) && tasks[t].Append? && page == PageFor(State(), tasks[t], ids, freshId)
      modifies this
      ensures State() == Next(old(State()), Reply(t, ids, freshId))
    {
      var task := tasks[t];
      frozen := FrozenAfter(State(), task, ids, freshId);
      tasks := tasks - {t};
      var current := sessionGeneration == task.generation && task.number == eventsRequestSeq;
      if authed && current && currentEventFilter == task.filter {
        if page.snapshot == task.snapshot && eventsDataFilter == task.filter {
          var all := CollectPage(events.events, page.events);
          events := Shown(all, page.snapshot, page.hasMore);
        }
      }
      if current {
        eventsLoadingMore := false;
      }
    }

    // The caller of fetchEventPages goes on.
    method Resume(t: nat)
      requires Enabled(State(), Settle(t))
      modifies this
      ensures State() == Next(old(State()), Settle(t))
    {
      var task := tasks[t];
      tasks := tasks - {t};
      var current := sessionGeneration == task.generation && task.number == eventsRequestSeq;
      if authed && current && currentEventFilter == task.filter && task.status.Fetched? {
        events := Shown(task.got, task.snapshot, task.more);
        eventsDataFilter := task.filter;
        eventsLoadingFirstPage := false;
      }
      if task.purpose.Refresh? {
        refreshing := false;
      } else if current {
        eventsLoadingFirstPage := false;
      }
    }
  }
}
