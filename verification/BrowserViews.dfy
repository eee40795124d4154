/**
 The browser views of the desktop app (electron/browser-view-manager.ts): live views in the
 foreground or background, snapshots of discarded ones, and idle timers. The clock, the URL a
 page is at, which windows are closed and what the process metrics say come from outside.
 */
module BrowserViews {
  import opened Outcomes

  type Pane = string
  type WindowId = int

  datatype View = View(url: string, window: WindowId, active: bool, lastActiveAt: int)

  datatype Shown = Active | Background | Discarded

  datatype Metric = Metric(pane: Pane, state: Shown)

  const MAX_BACKGROUND := 3

  ghost function Behind(views: map<Pane, View>): set<Pane> {
    set p | p in views && !views[p].active
  }

  /** The background panes, least recently activated first. */
  ghost predicate ByAge(views: map<Pane, View>, list: seq<Pane>) {
    && (forall p :: p in list <==> p in Behind(views))
    && |list| == |Behind(views)|
    && (forall i, j :: 0 <= i < j < |list| ==> list[i] != list[j])
    && (forall i, j :: 0 <= i < j < |list| && list[i] in views && list[j] in views
          ==> views[list[i]].lastActiveAt <= views[list[j]].lastActiveAt)
  }

  method Oldest(views: map<Pane, View>, among: set<Pane>) returns (p: Pane)
    requires among != {} && among <= views.Keys
    ensures p in among
    ensures forall q :: q in among ==> views[p].lastActiveAt <= views[q].lastActiveAt
  {
    p :| p in among;
    var todo := among - {p};
    while todo != {}
      invariant todo <= among && p in among
      invariant forall q :: q in among - todo ==> views[p].lastActiveAt <= views[q].lastActiveAt
      decreases |todo|
    {
      var q :| q in todo;
      if views[q].lastActiveAt < views[p].lastActiveAt { p := q; }
      todo := todo - {q};
    }
  }

  /** Array.from(views.values()).filter(background).sort(by lastActiveAt). */
  method SortBackground(views: map<Pane, View>) returns (list: seq<Pane>)
    ensures ByAge(views, list)
  {
    var todo := set p | p in views && !views[p].active;
    list := [];
    while todo != {}
      invariant todo <= Behind(views)
      invariant |list| + |todo| == |Behind(views)|
      invariant forall p :: p in list <==> p in Behind(views) - todo
      invariant forall i, j :: 0 <= i < j < |list| ==> list[i] != list[j]
      invariant forall i, j :: 0 <= i < j < |list| && list[i] in views && list[j] in views
                  ==> views[list[i]].lastActiveAt <= views[list[j]].lastActiveAt
      invariant forall p, q :: p in list && q in todo ==> views[p].lastActiveAt <= views[q].lastActiveAt
      decreases |todo|
    {
      var p := Oldest(views, todo);
      list := list + [p];
      todo := todo - {p};
    }
  }

  const MEMORY_LIMIT_KB := 512 * 1024

  function Kilobytes(m: Option<nat>): nat {
    if m.Some? then m.value else 0
  }

  /** The memory of all these pages together. */
  ghost function Total(panes: set<Pane>, memory: Pane -> Option<nat>): nat {
    if panes == {} then 0
    else
      var p :| p in panes;
      Kilobytes(memory(p)) + Total(panes - {p}, memory)
  }

  /** The order of adding does not matter. */
  lemma {:induction false} TotalWithout(panes: set<Pane>, memory: Pane -> Option<nat>, p: Pane)
    requires p in panes
    ensures Total(panes, memory) == Kilobytes(memory(p)) + Total(panes - {p}, memory)
  {
    var first :| first in panes && Total(panes, memory) == Kilobytes(memory(first)) + Total(panes - {first}, memory);
    if first != p {
      TotalWithout(panes - {first}, memory, p);
      TotalWithout(panes - {p}, memory, first);
      assert panes - {first} - {p} == panes - {p} - {first};
    }
  }

  /** What removing some panes leaves of a map. */
  lemma BehindWithout(views: map<Pane, View>, p: Pane)
    requires p in Behind(views)
    ensures Behind(views - {p}) == Behind(views) - {p} && |Behind(views - {p})| == |Behind(views)| - 1
  {
    assert Behind(views - {p}) == Behind(views) - {p};
  }

  class Manager {
    var views: map<Pane, View>
    var snapshots: map<Pane, string>
    var timers: set<Pane>

    /** No pane is both live and discarded, and exactly the background views have an idle timer. */
    ghost predicate Consistent()
      reads this
    {
      views.Keys !! snapshots.Keys && timers == Behind(views)
    }

    ghost predicate Valid()
      reads this
    {
      Consistent() && |Behind(views)| <= MAX_BACKGROUND
    }

    constructor ()
      ensures Valid() && views == map[] && snapshots == map[]
    {
      views, snapshots, timers := map[], map[], {};
    }

    method Activate(pane: Pane, now: int)
      requires Valid()
      modifies this
      ensures Valid() && snapshots == old(snapshots)
      ensures pane !in old(views) ==> views == old(views)
      ensures pane in old(views) ==> views == old(views)[pane := old(views)[pane].(active := true, lastActiveAt := now)]
    {
      if pane !in views { return; }
      ghost var before := Behind(views);
      views := views[pane := views[pane].(active := true, lastActiveAt := now)];
      timers := timers - {pane};
      assert Behind(views) == before - {pane};
    }

    /** A discarded pane opens at its saved URL; a URL that is not allowed opens nothing. */
    method Open(win: WindowId, url: string, pane: Pane, allowed: string -> bool, now: int)
      requires Valid()
      modifies this
      ensures Valid()
      ensures pane !in snapshots && forall q :: q != pane ==> (q in snapshots <==> q in old(snapshots))
      ensures forall q :: q != pane ==> (q in views <==> q in old(views)) && (q in views ==> views[q] == old(views)[q])
      ensures pane in old(views) ==>
        pane in views && views[pane] == old(views)[pane].(active := true, lastActiveAt := now)
      ensures pane !in old(views) ==>
        var loaded := if pane in old(snapshots) then old(snapshots)[pane] else url;
        (pane in views <==> allowed(loaded)) && (pane in views ==> views[pane] == View(loaded, win, true, now))
    {
      if pane in views {
        Activate(pane, now);
        return;
      }
      ghost var before := Behind(views);
      var loaded := if pane in snapshots then snapshots[pane] else url;
      snapshots := snapshots - {pane};
      if !allowed(loaded) { return; }
      views := views[pane := View(loaded, win, true, now)];
      timers := timers - {pane};
      assert Behind(views) == before;
    }

    /** A live view becomes a snapshot; when its window is gone it just goes. */
    method Discard(pane: Pane, closed: set<WindowId>, current: Pane -> string)
      requires Consistent()
      modifies this
      ensures Consistent()
      ensures views == old(views) - {pane}
      ensures snapshots == if pane in old(views) && old(views)[pane].window !in closed
                           then old(snapshots)[pane := SavedUrl(old(views), pane, current)]
                           else old(snapshots)
    {
      if pane !in views { return; }
      ghost var before := Behind(views);
      if views[pane].window !in closed {
        snapshots := snapshots[pane := SavedUrl(views, pane, current)];
      }
      views := views - {pane};
      timers := timers - {pane};
      assert Behind(views) == before - {pane};
    }

    /**
     Deactivates the pane, then discards the least recently activated background views beyond
     the limit. The discarded ones are exactly those gone from views.
     */
    method PutBehind(pane: Pane, closed: set<WindowId>, current: Pane -> string)
      requires Valid()
      modifies this
      ensures Valid()
      ensures Evicted(Deactivated(old(views), pane), views)
      ensures SnapshotsFollow(Deactivated(old(views), pane), views, old(snapshots), snapshots, closed, current)
    {
      if pane !in views {
        assert Deactivated(views, pane) == views;
        return;
      }
      StartIdleTimer(pane);
      EnforceMaxBackground(closed, current);
    }

    method StartIdleTimer(pane: Pane)
      requires Consistent() && pane in views
      modifies this
      ensures Consistent() && snapshots == old(snapshots) && views == Deactivated(old(views), pane)
    {
      ghost var before := Behind(views);
      views := views[pane := views[pane].(active := false)];
      timers := timers + {pane};
      assert Behind(views) == before + {pane};
    }

    method EnforceMaxBackground(closed: set<WindowId>, current: Pane -> string)
      requires Consistent()
      modifies this
      ensures Valid() && |Behind(views)| <= 3
      ensures Evicted(old(views), views)
      ensures SnapshotsFollow(old(views), views, old(snapshots), snapshots, closed, current)
    {
      var list := SortBackground(views);
      var k := 0;
      while |list| - k > MAX_BACKGROUND
        invariant 0 <= k <= |list|
        invariant k > 0 ==> |list| - k >= MAX_BACKGROUND
        invariant Consistent()
        invariant forall i :: 0 <= i < k ==> list[i] !in views
        invariant forall p :: p in views ==> p in old(views) && views[p] == old(views)[p]
        invariant forall p :: p in old(views) && p !in list[..k] ==> p in views
        invariant |Behind(views)| == |list| - k
        invariant SnapshotsFollow(old(views), views, old(snapshots), snapshots, closed, current)
      {
        var pane := list[k];
        assert pane in Behind(old(views)) && pane !in list[..k] && pane in views;
        BehindWithout(views, pane);
        ghost var was, had := views, snapshots;
        Discard(pane, closed, current);
        k := k + 1;
        FollowStep(old(views), was, old(snapshots), had, closed, current, pane);
        assert list[..k] == list[..k - 1] + [pane];
      }
      EvictedPrefix(old(views), views, list, k);
    }

    /** The idle timer of a background view fires. */
    method TimerFires(pane: Pane, closed: set<WindowId>, current: Pane -> string)
      requires Valid() && pane in timers
      modifies this
      ensures Valid() && views == old(views) - {pane} && pane !in timers
      ensures pane in snapshots <==> old(views)[pane].window !in closed
    {
      BehindWithout(views, pane);
      Discard(pane, closed, current);
    }

    /** The loop of checkMemoryLimit; memory is None for a destroyed page or one without a metric. */
    method SumMemory(memory: Pane -> Option<nat>) returns (total: nat)
      ensures total == Total(views.Keys, memory)
    {
      total := 0;
      var todo := views.Keys;
      while todo != {}
        invariant todo <= views.Keys && total + Total(todo, memory) == Total(views.Keys, memory)
        decreases |todo|
      {
        var pane :| pane in todo;
        TotalWithout(todo, memory, pane);
        total := total + Kilobytes(memory(pane));
        todo := todo - {pane};
      }
    }

    /**
     checkMemoryLimit: when the pages take more than the limit, one least recently activated background
     view goes, if there is one.
     */
    method CheckMemoryLimit(memory: Pane -> Option<nat>, closed: set<WindowId>, current: Pane -> string)
      requires Valid()
      modifies this
      ensures Valid()
      ensures Total(old(views).Keys, memory) <= 512 * 1024 || Behind(old(views)) == {} ==>
        views == old(views) && snapshots == old(snapshots)
      ensures Total(old(views).Keys, memory) > 512 * 1024 && Behind(old(views)) != {} ==>
        exists p :: p in Behind(old(views)) && views == old(views) - {p}
          && forall q :: q in Behind(views) ==> old(views)[p].lastActiveAt <= old(views)[q].lastActiveAt
      ensures SnapshotsFollow(old(views), views, old(snapshots), snapshots, closed, current)
    {
      var total := SumMemory(memory);
      if total <= MEMORY_LIMIT_KB { return; }
      var list := SortBackground(views);
      if |list| > 0 {
        ghost var was := views;
        assert list[0] in Behind(views);
        BehindWithout(views, list[0]);
        FollowStep(views, views, snapshots, snapshots, closed, current, list[0]);
        Discard(list[0], closed, current);
        FirstIsOldest(was, list);
        assert views == was - {list[0]};
      }
    }

    method Destroy(pane: Pane)
      requires Valid()
      modifies this
      ensures Valid() && views == old(views) - {pane} && snapshots == old(snapshots)
    {
      if pane !in views { return; }
      if pane in timers { BehindWithout(views, pane); }
      ghost var before := Behind(views);
      timers := timers - {pane};
      views := views - {pane};
      assert Behind(views) == before - {pane};
    }

    /** Exactly the views of the window go. */
    method CleanupForWindow(win: WindowId)
      requires Valid()
      modifies this
      ensures Valid() && snapshots == old(snapshots)
      ensures views == map p | p in old(views) && old(views)[p].window != win :: old(views)[p]
    {
      var todo := views.Keys;
      while todo != {}
        invariant Valid() && snapshots == old(snapshots)
        invariant todo <= views.Keys <= old(views).Keys
        invariant forall p :: p in views ==> views[p] == old(views)[p] && (p in todo || views[p].window != win)
        invariant forall p :: p in old(views) && old(views)[p].window != win ==> p in views
        decreases |todo|
      {
        var pane :| pane in todo;
        if views[pane].window == win { Destroy(pane); }
        todo := todo - {pane};
      }
    }

    method DestroyAll()
      modifies this
      ensures Valid() && views == map[] && snapshots == map[] && timers == {}
    {
      views, snapshots, timers := map[], map[], {};
    }

    /** One line for each live page that is not destroyed and each snapshot, and no pane twice. */
    method GetMetrics(gone: set<Pane>) returns (list: seq<Metric>)
      requires Valid()
      ensures forall i, j :: 0 <= i < j < |list| ==> list[i].pane != list[j].pane
      ensures forall m :: m in list <==> Reported(views, snapshots, gone, m)
    {
      list := [];
      var todo := views.Keys;
      while todo != {}
        invariant todo <= views.Keys
        invariant forall m :: m in list <==> m.pane in views.Keys - todo && Reported(views, map[], gone, m)
        invariant forall i, j :: 0 <= i < j < |list| ==> list[i].pane != list[j].pane
        decreases |todo|
      {
        var pane :| pane in todo;
        if pane !in gone {
          list := list + [Metric(pane, if views[pane].active then Active else Background)];
        }
        todo := todo - {pane};
      }
      ghost var live := list;
      assert forall m :: m in live <==> Reported(views, map[], gone, m);
      todo := snapshots.Keys;
      while todo != {}
        invariant todo <= snapshots.Keys
        invariant forall m :: m in list <==> m in live || (m.pane in snapshots.Keys - todo && m.state == Discarded)
        invariant forall i, j :: 0 <= i < j < |list| ==> list[i].pane != list[j].pane
        decreases |todo|
      {
        var pane :| pane in todo;
        forall i | 0 <= i < |list| ensures list[i].pane != pane {
          assert list[i] in list;
        }
        list := list + [Metric(pane, Discarded)];
        todo := todo - {pane};
      }
    }
  }

  ghost predicate Reported(views: map<Pane, View>, snapshots: map<Pane, string>, gone: set<Pane>, m: Metric) {
    match m.state
    case Active => m.pane in views && m.pane !in gone && views[m.pane].active
    case Background => m.pane in views && m.pane !in gone && !views[m.pane].active
    case Discarded => m.pane in snapshots
  }

  lemma FirstIsOldest(views: map<Pane, View>, list: seq<Pane>)
    requires ByAge(views, list) && |list| > 0
    ensures list[0] in Behind(views)
    ensures forall q :: q in Behind(views) ==> views[list[0]].lastActiveAt <= views[q].lastActiveAt
  {
    assert list[0] in list;
    forall q | q in Behind(views) ensures views[list[0]].lastActiveAt <= views[q].lastActiveAt {
      assert q in list;
      var j :| 0 <= j < |list| && list[j] == q;
    }
  }

  function SavedUrl(views: map<Pane, View>, pane: Pane, current: Pane -> string): string
    requires pane in views
  {
    if current(pane) != "" then current(pane) else views[pane].url
  }

  ghost function Deactivated(views: map<Pane, View>, pane: Pane): map<Pane, View> {
    if pane in views then views[pane := views[pane].(active := false)] else views
  }

  /**
   after is before without some background views: as many as are over the limit, and none more
   recently activated than a background view that stays.
   */
  ghost predicate Evicted(before: map<Pane, View>, after: map<Pane, View>) {
    && (forall p :: p in after ==> p in before && after[p] == before[p])
    && (forall p :: p in before && before[p].active ==> p in after)
    && |Behind(after)| == (if |Behind(before)| > MAX_BACKGROUND then MAX_BACKGROUND else |Behind(before)|)
    && (forall p, q :: p in before && p !in after && q in Behind(after)
          ==> before[p].lastActiveAt <= before[q].lastActiveAt)
  }

  /** Every pane gone from views has its snapshot (unless its window is closed), and the other snapshots stay. */
  ghost predicate SnapshotsFollow(before: map<Pane, View>, after: map<Pane, View>,
                                  was: map<Pane, string>, now: map<Pane, string>,
                                  closed: set<WindowId>, current: Pane -> string) {
    forall p ::
      if p in before && p !in after && before[p].window !in closed
      then p in now && now[p] == (if current(p) != "" then current(p) else before[p].url)
      else (p in now <==> p in was) && (p in now ==> now[p] == was[p])
  }

  lemma FollowStep(before: map<Pane, View>, mid: map<Pane, View>, was: map<Pane, string>, had: map<Pane, string>,
                   closed: set<WindowId>, current: Pane -> string, pane: Pane)
    requires SnapshotsFollow(before, mid, was, had, closed, current)
    requires pane in mid && (forall p :: p in mid ==> p in before && mid[p] == before[p])
    ensures var now := if mid[pane].window !in closed then had[pane := SavedUrl(mid, pane, current)] else had;
            SnapshotsFollow(before, mid - {pane}, was, now, closed, current)
  {
  }

  lemma EvictedPrefix(before: map<Pane, View>, after: map<Pane, View>, list: seq<Pane>, k: nat)
    requires ByAge(before, list) && k <= |list|
    requires |list| - k <= MAX_BACKGROUND && (k > 0 ==> |list| - k >= MAX_BACKGROUND)
    requires forall i :: 0 <= i < k ==> list[i] !in after
    requires forall p :: p in after ==> p in before && after[p] == before[p]
    requires forall p :: p in before && p !in list[..k] ==> p in after
    requires |Behind(after)| == |list| - k
    ensures Evicted(before, after)
  {
    forall p | p in before && before[p].active ensures p in after {
      assert p !in list;
    }
    forall p, q | p in before && p !in after && q in Behind(after)
      ensures before[p].lastActiveAt <= before[q].lastActiveAt
    {
      assert p in list[..k];
      var i :| 0 <= i < k && list[i] == p;
      assert q in Behind(before) && q in list;
      var j :| 0 <= j < |list| && list[j] == q;
      assert j >= k;
    }
  }
}
