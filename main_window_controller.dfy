/**
 * The part of `MainWindowController` that is not user interface: `reload`,
 * which groups the reports by process, and the two decision rules that say
 * which reports a command acts on and which menu items are enabled.
 */
module Controller {
  import opened Wrappers
  import opened Reports
  import opened Groups

  // ---------------------------------------------------------------------
  // Grouping, stated on values
  // ---------------------------------------------------------------------

  /** A group as `reload` sees it: its name and its reports, in the order added. */
  datatype GroupView = GroupView(name: string, reports: seq<Report>)

  /** A group whose first report belongs to process `p`. */
  predicate LedBy(v: GroupView, p: string) {
    v.reports != [] && v.reports[0].Process() == p
  }

  /** The first group led by process `p` (`groups.first { ... }`). */
  function FindGroup(views: seq<GroupView>, p: string): (r: Option<nat>)
    ensures r.Some? ==> (r.value < |views| && LedBy(views[r.value], p))
  {
    if views == [] then None
    else if LedBy(views[0], p) then Some(0)
    else match FindGroup(views[1..], p)
      case None => None
      case Some(i) => Some(i + 1)
  }

  /** `FindGroup` answers the first group led by `p`, or none when no group is. */
  lemma {:induction false} FindGroupIsFirst(views: seq<GroupView>, p: string, k: nat)
    requires k <= |views|
    requires forall j :: 0 <= j < k ==> !LedBy(views[j], p)
    requires k == |views| || LedBy(views[k], p)
    ensures FindGroup(views, p) == if k < |views| then Some(k) else None
  {
    if k > 0 {
      assert !LedBy(views[0], p);
      assert forall j :: 0 <= j < k - 1 ==> views[1..][j] == views[j + 1];
      FindGroupIsFirst(views[1..], p, k - 1);
    }
  }

  /** One delivered report: appended to the group of its process, or to a new group named after it. */
  function Ingest(views: seq<GroupView>, r: Report): seq<GroupView> {
    match FindGroup(views, r.Process())
    case Some(i) => views[i := views[i].(reports := views[i].reports + [r])]
    case None => views + [GroupView(r.Process(), [r])]
  }

  /** The reports delivered in order, starting from no group. */
  function IngestAll(rs: seq<Report>): seq<GroupView> {
    if rs == [] then [] else Ingest(IngestAll(rs[..|rs| - 1]), rs[|rs| - 1])
  }

  /** The reports of `rs` that belong to process `p`, in their order. */
  function Of(rs: seq<Report>, p: string): seq<Report> {
    if rs == [] then []
    else Of(rs[..|rs| - 1], p) + (if rs[|rs| - 1].Process() == p then [rs[|rs| - 1]] else [])
  }

  lemma OfAppend(rs: seq<Report>, r: Report, p: string)
    ensures Of(rs + [r], p) == Of(rs, p) + (if r.Process() == p then [r] else [])
  {
    assert (rs + [r])[..|rs|] == rs;
  }

  lemma {:induction false} OfEmptyWhenAbsent(rs: seq<Report>, p: string)
    requires forall k :: 0 <= k < |rs| ==> rs[k].Process() != p
    ensures Of(rs, p) == []
  {
    if rs != [] {
      OfEmptyWhenAbsent(rs[..|rs| - 1], p);
    }
  }

  predicate NamesDistinct(views: seq<GroupView>) {
    forall i, j :: 0 <= i < j < |views| ==> views[i].name != views[j].name
  }

  /** Every group is led by the process it is named after, and no two share a name. */
  predicate ViewsLedByName(views: seq<GroupView>) {
    (forall i :: 0 <= i < |views| ==> LedBy(views[i], views[i].name)) && NamesDistinct(views)
  }

  /** Each group is led by the process it is named after and holds exactly that process's reports. */
  predicate HoldsOwnReports(views: seq<GroupView>, rs: seq<Report>) {
    forall i :: 0 <= i < |views| ==> LedBy(views[i], views[i].name) && views[i].reports == Of(rs, views[i].name)
  }

  /** Every report's process has a group. */
  predicate Covers(views: seq<GroupView>, rs: seq<Report>) {
    forall k :: 0 <= k < |rs| ==> exists i :: 0 <= i < |views| && views[i].name == rs[k].Process()
  }

  /** Groups as `reload` builds them: one per process, named after it, holding exactly its reports. */
  predicate GroupedBy(views: seq<GroupView>, rs: seq<Report>) {
    NamesDistinct(views) && HoldsOwnReports(views, rs) && Covers(views, rs)
  }

  /**
   * Delivering the reports one by one groups them by process: every process
   * has exactly one group, named after it, whose reports are that process's
   * reports in the order delivered.
   */
  lemma {:induction false} IngestAllGroupsByProcess(rs: seq<Report>)
    ensures GroupedBy(IngestAll(rs), rs)
  {
    if rs != [] {
      var front, r := rs[..|rs| - 1], rs[|rs| - 1];
      IngestAllGroupsByProcess(front);
      assert front + [r] == rs;
      match FindGroup(IngestAll(front), r.Process())
      case Some(i) => IngestIntoExisting(IngestAll(front), front, r, i);
      case None => IngestIntoNew(IngestAll(front), front, r);
    }
  }

  /** Groups that keep their names, with one named after `r`, cover one more report. */
  lemma CoversExtend(views: seq<GroupView>, next: seq<GroupView>, rs: seq<Report>, r: Report, i: nat)
    requires Covers(views, rs)
    requires |views| <= |next| && forall j :: 0 <= j < |views| ==> next[j].name == views[j].name
    requires i < |next| && next[i].name == r.Process()
    ensures Covers(next, rs + [r])
  {
    forall k | 0 <= k < |rs| + 1 ensures exists j :: 0 <= j < |next| && next[j].name == (rs + [r])[k].Process() {
      if k == |rs| {
        assert next[i].name == (rs + [r])[k].Process();
      } else {
        assert (rs + [r])[k] == rs[k];
        var j :| 0 <= j < |views| && views[j].name == rs[k].Process();
        assert next[j].name == views[j].name;
      }
    }
  }

  /** A report whose process has a group joins it, and the grouping covers one more report. */
  lemma IngestIntoExisting(views: seq<GroupView>, rs: seq<Report>, r: Report, i: nat)
    requires GroupedBy(views, rs)
    requires FindGroup(views, r.Process()) == Some(i)
    ensures GroupedBy(Ingest(views, r), rs + [r])
  {
    var next := Ingest(views, r);
    assert views[i].name == r.Process();
    forall j | 0 <= j < |next|
      ensures LedBy(next[j], next[j].name) && next[j].reports == Of(rs + [r], next[j].name)
    {
      OfAppend(rs, r, next[j].name);
    }
    CoversExtend(views, next, rs, r, i);
  }

  /** No group is named after a process that leads none. */
  lemma AbsentProcess(views: seq<GroupView>, rs: seq<Report>, p: string)
    requires GroupedBy(views, rs)
    requires FindGroup(views, p).None?
    ensures forall j :: 0 <= j < |views| ==> views[j].name != p
    ensures Of(rs, p) == []
  {
    NoGroupNamed(views, p);
    forall k | 0 <= k < |rs| ensures rs[k].Process() != p {
      var j :| 0 <= j < |views| && views[j].name == rs[k].Process();
    }
    OfEmptyWhenAbsent(rs, p);
  }

  /** When no group is led by `p`, and each group is led by its name, no group is named `p`. */
  lemma NoGroupNamed(views: seq<GroupView>, p: string)
    requires FindGroup(views, p).None?
    requires forall j :: 0 <= j < |views| ==> LedBy(views[j], views[j].name)
    ensures forall j :: 0 <= j < |views| ==> views[j].name != p
  {
    forall j | 0 <= j < |views| ensures views[j].name != p {
      if views[j].name == p {
        FindGroupIsFirst(views, p, j);
      }
    }
  }

  /** A report whose process has no group starts one, and the grouping covers one more report. */
  lemma IngestIntoNew(views: seq<GroupView>, rs: seq<Report>, r: Report)
    requires GroupedBy(views, rs)
    requires FindGroup(views, r.Process()).None?
    ensures GroupedBy(Ingest(views, r), rs + [r])
  {
    var p := r.Process();
    var next := views + [GroupView(p, [r])];
    assert Ingest(views, r) == next;
    AbsentProcess(views, rs, p);
    assert NamesDistinct(next);
    forall j | 0 <= j < |next|
      ensures LedBy(next[j], next[j].name) && next[j].reports == Of(rs + [r], next[j].name)
    {
      OfAppend(rs, r, next[j].name);
    }
    CoversExtend(views, next, rs, r, |views|);
  }

  // ---------------------------------------------------------------------
  // The controller object
  // ---------------------------------------------------------------------

  class MainWindowController {
    var groups: seq<ReportGroup>
    var initializing: bool
    var loading: bool

    function View(g: ReportGroup): GroupView
      reads g
    {
      GroupView(g.name, g.reports)
    }

    function Views(): (vs: seq<GroupView>)
      reads this`groups, groups
      ensures |vs| == |groups|
      ensures forall i :: 0 <= i < |groups| ==> vs[i] == View(groups[i])
    {
      var gs := groups;
      seq(|gs|, i requires 0 <= i < |gs| reads gs => View(gs[i]))
    }

    /**
     * Distinct group objects, each consistent, seen as groups that are each
     * led by the process they are named after, no two with the same name.
     */
    predicate Valid()
      reads this`groups, groups
    {
      (forall i, j :: 0 <= i < j < |groups| ==> groups[i] != groups[j])
      && (forall i :: 0 <= i < |groups| ==> groups[i].Valid())
      && ViewsLedByName(Views())
    }

    constructor()
      ensures Valid() && groups == [] && !initializing && !loading
    {
      groups := [];
      initializing := false;
      loading := false;
    }

    /** The search of `groups.first { ... }`. */
    method FindGroupIndex(p: string) returns (r: Option<nat>)
      ensures r == FindGroup(Views(), p)
    {
      var k := 0;
      while k < |groups| && !(groups[k].reports != [] && groups[k].reports[0].Process() == p)
        invariant 0 <= k <= |groups|
        invariant forall j :: 0 <= j < k ==> !LedBy(Views()[j], p)
      {
        k := k + 1;
      }
      FindGroupIsFirst(Views(), p, k);
      if k < |groups| {
        r := Some(k);
      } else {
        r := None;
      }
    }

    /** The first half of `reload`: nothing while loading; otherwise raise the flags and drop the groups. */
    method BeginReload() returns (started: bool)
      modifies this
      ensures started == !old(loading)
      ensures !started ==> groups == old(groups) && initializing == old(initializing) && loading
      ensures started ==> groups == [] && initializing && loading && Valid()
    {
      if loading {
        return false;
      }
      initializing := true;
      loading := true;
      groups := [];
      return true;
    }

    /** `addReport` on the group found for the report. */
    method AddToGroup(i: nat, r: Report)
      requires Valid() && FindGroup(Views(), r.Process()) == Some(i)
      modifies groups[i]
      ensures Valid()
      ensures Views() == Ingest(old(Views()), r)
    {
      ghost var before := Views();
      groups[i].AddReport(r);
      ghost var after := before[i := before[i].(reports := before[i].reports + [r])];
      assert forall j :: 0 <= j < |groups| ==> Views()[j] == after[j];
      assert Ingest(before, r) == after;
    }

    /** A new group named after the report's process, holding the report, added at the end. */
    method AddNewGroup(r: Report)
      requires Valid() && FindGroup(Views(), r.Process()).None?
      modifies this`groups
      ensures Valid()
      ensures forall i :: 0 <= i < |groups| ==> groups[i] in old(groups) || fresh(groups[i])
      ensures Views() == Ingest(old(Views()), r)
    {
      ghost var before := Views();
      var p := r.Process();
      NoGroupNamed(before, p);
      ghost var after := before + [GroupView(p, [r])];
      assert ViewsLedByName(after);
      assert Ingest(before, r) == after;
      var g := new ReportGroup(p);
      g.AddReport(r);
      groups := groups + [g];
      assert forall j :: 0 <= j < |groups| ==> Views()[j] == after[j];
    }

    /** The handler for one delivered report: find or create its group, add the report to it. */
    method Deliver(r: Report)
      requires Valid()
      modifies this`groups, groups
      ensures Valid()
      ensures Views() == Ingest(old(Views()), r)
      ensures forall i :: 0 <= i < |groups| ==> groups[i] in old(groups) || fresh(groups[i])
    {
      var found := FindGroupIndex(r.Process());
      if found.Some? {
        AddToGroup(found.value, r);
      } else {
        AddNewGroup(r);
      }
    }

    /** The last step of `reload`: loading is over. */
    method FinishReload()
      modifies this
      ensures !loading && groups == old(groups) && initializing == old(initializing)
    {
      loading := false;
    }

    /**
     * The deliveries of one reload, in order, onto no group: each report is
     * grouped, and the window stops initializing once one has arrived.
     */
    method DeliverAll(reports: seq<Report>)
      requires Valid() && groups == []
      modifies this`groups, this`initializing
      ensures Valid() && Views() == IngestAll(reports)
      ensures forall i :: 0 <= i < |groups| ==> fresh(groups[i])
      ensures initializing == (old(initializing) && reports == [])
    {
      var k := 0;
      while k < |reports|
        invariant 0 <= k <= |reports|
        invariant Valid()
        invariant forall i :: 0 <= i < |groups| ==> fresh(groups[i])
        invariant Views() == IngestAll(reports[..k])
        invariant initializing == (old(initializing) && k == 0)
      {
        assert reports[..k + 1][..k] == reports[..k];
        assert IngestAll(reports[..k + 1]) == Ingest(IngestAll(reports[..k]), reports[k]);
        Deliver(reports[k]);
        initializing := false;
        k := k + 1;
      }
      assert reports[..k] == reports;
    }

    /**
     * `reload` with the reports delivered one after another: a no-op while
     * loading; otherwise the groups are rebuilt from `reports` alone.
     */
    method Reload(reports: seq<Report>)
      requires Valid()
      modifies this
      ensures Valid()
      ensures old(loading) ==> loading && groups == old(groups) && initializing == old(initializing)
      ensures !old(loading) ==> !loading && Views() == IngestAll(reports)
      ensures !old(loading) ==> initializing == (reports == [])
    {
      var started := BeginReload();
      if !started {
        return;
      }
      DeliverAll(reports);
      FinishReload();
    }
  }

  // ---------------------------------------------------------------------
  // Which reports a command acts on
  // ---------------------------------------------------------------------

  /** The reports table's array controller: the rows in display order and the selected rows. */
  datatype Arranged<T> = Arranged(arranged: seq<T>, selected: seq<T>)

  /**
   * `clickedOrSelectedItems`: with a right-clicked row, that row's item, or
   * the whole selection when the item is part of it; with no clicked row, the
   * selection. No table view or array controller means nothing.
   */
  function ClickedOrSelected<T(==)>(clickedRow: Option<int>, content: Option<Arranged<T>>): seq<T> {
    if clickedRow.None? || content.None? then []
    else
      var row, a := clickedRow.value, content.value;
      if row >= 0 then
        if row >= |a.arranged| then []
        else if a.arranged[row] in a.selected then a.selected
        else [a.arranged[row]]
      else a.selected
  }

  /**
   * The items acted on are the clicked item, alone or with the selection it
   * belongs to, or the selection when no row is clicked; a click outside the
   * rows selects nothing.
   */
  lemma ClickedOrSelectedTargets<T>(row: int, a: Arranged<T>)
    ensures var r := ClickedOrSelected(Some(row), Some(a));
      (0 <= row < |a.arranged| ==>
         (a.arranged[row] in r
          && (r == a.selected || r == [a.arranged[row]])
          && (r == a.selected <==> a.arranged[row] in a.selected)))
      && (row >= |a.arranged| ==> r == [])
      && (row < 0 ==> r == a.selected)
      && (forall x :: x in r ==> x in a.selected || (0 <= row < |a.arranged| && x == a.arranged[row]))
  {
  }

  // ---------------------------------------------------------------------
  // Which menu items are enabled
  // ---------------------------------------------------------------------

  datatype Action =
    | ReloadAction | OpenAction | OpenWithAppAction | ShowInFinderAction | SaveAsAction | ShareAction
    | SaveDocumentAction | SaveDocumentAsAction | OpenDocumentAction | OtherAction

  /** Commands that act on the clicked or selected reports. */
  predicate ActsOnReports(a: Action) {
    a == OpenAction || a == OpenWithAppAction || a == ShowInFinderAction || a == SaveAsAction || a == ShareAction
  }

  /** The document commands, enabled whenever there is a controller: a count is never negative. */
  predicate DocumentCommand(a: Action) {
    a == SaveDocumentAction || a == SaveDocumentAsAction || a == OpenDocumentAction
  }

  /**
   * `validateMenuItem`, given the item's action (none for an item without
   * one), the table's clicked row (none without a table), the number of
   * selected objects (none without a controller) and the loading flag.
   */
  function MenuItemEnabled(action: Option<Action>, clickedRow: Option<int>, selectedCount: Option<nat>,
                           loading: bool): bool
  {
    if action.None? || clickedRow.None? || selectedCount.None? then false
    else if action.value == ReloadAction then !loading
    else if ActsOnReports(action.value) then clickedRow.value >= 0
    else if DocumentCommand(action.value) then selectedCount.value >= 0
    else false
  }

  /**
   * With a table and a controller: reload is enabled exactly when it would
   * start (not loading), the report commands exactly when a row is clicked,
   * the document commands always, and nothing else. Without them, nothing is.
   */
  lemma MenuItemEnabledTable(action: Option<Action>, clickedRow: Option<int>, selectedCount: Option<nat>, loading: bool)
    ensures action.None? || clickedRow.None? || selectedCount.None? ==>
      !MenuItemEnabled(action, clickedRow, selectedCount, loading)
    ensures action.Some? && clickedRow.Some? && selectedCount.Some? ==>
      var a, enabled := action.value, MenuItemEnabled(action, clickedRow, selectedCount, loading);
      (a == ReloadAction ==> (enabled <==> !loading))
      && (ActsOnReports(a) ==> (enabled <==> clickedRow.value >= 0))
      && (DocumentCommand(a) ==> enabled)
      && (a == OtherAction ==> !enabled)
  {
  }

  /**
   * An enabled report command acts on at least the clicked item when the
   * click is on a row, and on nothing when it falls past the last row.
   */
  lemma EnabledCommandTargets<T>(a: Action, row: int, count: nat, content: Arranged<T>, loading: bool)
    requires ActsOnReports(a) && MenuItemEnabled(Some(a), Some(row), Some(count), loading)
    ensures row < |content.arranged| ==> content.arranged[row] in ClickedOrSelected(Some(row), Some(content))
    ensures row >= |content.arranged| ==> ClickedOrSelected(Some(row), Some(content)) == []
  {
    ClickedOrSelectedTargets(row, content);
  }
}
