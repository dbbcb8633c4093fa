/**
 * The task walker's decisions for one category (`navigate_to_production_tasks`
 * and `process_production_page`): which category button is clicked, what each
 * table row contributes to the two counters, and what the walk of one
 * category shows in the chat.
 */
module Tasks {
  import opened Wrappers
  import opened Text
  import opened Types

  /** A button text that names the category once stripped. */
  predicate Names(text: Option<string>, name: string) {
    text.Some? && Strip(text.value) == name
  }

  /**
   * The search over the category buttons: the first button whose stripped
   * text equals the name is clicked; a button whose text cannot be read ends
   * the search with a failure; no match is a failure too.
   */
  datatype ButtonScan = Matched(index: nat) | NoMatch | Unreadable(index: nat)

  /** The search, starting at button `i`. */
  function FirstMatchFrom(texts: seq<Option<string>>, name: string, i: nat): (r: ButtonScan)
    requires i <= |texts|
    ensures r.Matched? ==> i <= r.index < |texts| && Names(texts[r.index], name)
    ensures r.Unreadable? ==> i <= r.index < |texts| && texts[r.index].None?
    ensures !r.NoMatch? ==> forall j :: i <= j < r.index ==> texts[j].Some? && !Names(texts[j], name)
    ensures r.NoMatch? ==> forall j :: i <= j < |texts| ==> texts[j].Some? && !Names(texts[j], name)
    decreases |texts| - i
  {
    if i == |texts| then NoMatch
    else if texts[i].None? then Unreadable(i)
    else if Names(texts[i], name) then Matched(i)
    else FirstMatchFrom(texts, name, i + 1)
  }

  function FirstMatch(texts: seq<Option<string>>, name: string): ButtonScan {
    FirstMatchFrom(texts, name, 0)
  }

  /**
   * The search stops at its outcome: buttons after a match (or after an
   * unreadable one) are never examined, so appending buttons changes nothing.
   */
  lemma {:induction false} FirstMatchIgnoresLater(a: seq<Option<string>>, b: seq<Option<string>>, name: string, i: nat)
    requires i <= |a|
    requires !FirstMatchFrom(a, name, i).NoMatch?
    ensures FirstMatchFrom(a + b, name, i) == FirstMatchFrom(a, name, i)
    decreases |a| - i
  {
    assert (a + b)[i] == a[i];
    if a[i].Some? && !Names(a[i], name) {
      FirstMatchIgnoresLater(a, b, name, i + 1);
    }
  }

  /** When no button in `a` matches and all are readable, the search goes on into `b`. */
  lemma {:induction false} FirstMatchContinues(a: seq<Option<string>>, b: seq<Option<string>>, name: string, i: nat)
    requires i <= |a|
    requires FirstMatchFrom(a, name, i).NoMatch?
    ensures FirstMatchFrom(a + b, name, i) == match FirstMatchFrom(b, name, 0)
      case Matched(k) => Matched(|a| + k)
      case Unreadable(k) => Unreadable(|a| + k)
      case NoMatch => NoMatch
    decreases |a| - i
  {
    if i < |a| {
      assert (a + b)[i] == a[i];
      FirstMatchContinues(a, b, name, i + 1);
    } else {
      FirstMatchShift(a, b, name, 0);
    }
  }

  lemma {:induction false} FirstMatchShift(a: seq<Option<string>>, b: seq<Option<string>>, name: string, k: nat)
    requires k <= |b|
    ensures FirstMatchFrom(a + b, name, |a| + k) == match FirstMatchFrom(b, name, k)
      case Matched(j) => Matched(|a| + j)
      case Unreadable(j) => Unreadable(|a| + j)
      case NoMatch => NoMatch
    decreases |b| - k
  {
    if k < |b| {
      assert (a + b)[|a| + k] == b[k];
      FirstMatchShift(a, b, name, k + 1);
    }
  }

  /** What getting to one category's task list does: the navigation used, and whether a button was clicked. */
  datatype Navigation = Navigation(ok: bool, actions: seq<Action>)

  /**
   * `navigate_to_production_tasks`: follow the in-page link when it is there,
   * else open the tasks URL; then click the first button naming the category.
   * A failed wait for the buttons, an unreadable button, or no match gives false.
   */
  function Navigate(name: string, page: TaskPage): (r: Navigation)
    ensures r.ok <==> page.buttons.Some? && FirstMatch(page.buttons.value, name).Matched?
    ensures |r.actions| == if r.ok then 2 else 1
    ensures r.actions[0] == if page.navLink then OpenTasksByLink else OpenTasksByUrl
    ensures r.ok ==> var i := FirstMatch(page.buttons.value, name).index;
      r.actions[1] == ClickCategoryButton(i) && i < |page.buttons.value| && Names(page.buttons.value[i], name)
  {
    var open := if page.navLink then OpenTasksByLink else OpenTasksByUrl;
    match page.buttons
    case None => Navigation(false, [open])
    case Some(texts) =>
      match FirstMatch(texts, name)
      case Matched(i) => Navigation(true, [open, ClickCategoryButton(i)])
      case _ => Navigation(false, [open])
  }

  /** What one table row does to the counters. */
  datatype RowEffect =
    | Clicked    // unchecked icon: clicked, both counters go up
    | Counted    // checked icon only: the total goes up
    | Untouched  // header row, no checkbox cell, no icon, or a row that raised

  function Effect(row: RowView): RowEffect {
    match row
    case DataRow(Some(icons)) =>
      if icons.unchecked then Clicked else if icons.checked then Counted else Untouched
    case _ => Untouched
  }

  /** An unchecked icon wins over a checked one; rows without both a checkbox cell and an icon are untouched. */
  lemma EffectCases(row: RowView)
    ensures Effect(row) == Clicked <==> row.DataRow? && row.checkbox.Some? && row.checkbox.value.unchecked
    ensures Effect(row) == Counted <==> row == DataRow(Some(Icons(false, true)))
    ensures row.HeaderRow? || row.BrokenRow? || row == DataRow(None) ==> Effect(row) == Untouched
  {
  }

  /** `items_checked` after the rows: the number of clicked rows. */
  function CheckedCount(rows: seq<RowView>): nat {
    if rows == [] then 0
    else CheckedCount(rows[..|rows| - 1]) + (if Effect(rows[|rows| - 1]) == Clicked then 1 else 0)
  }

  /** `items_total` after the rows: the number of clicked or counted rows. */
  function TotalCount(rows: seq<RowView>): nat {
    if rows == [] then 0
    else TotalCount(rows[..|rows| - 1]) + (if Effect(rows[|rows| - 1]) != Untouched then 1 else 0)
  }

  /** The clicks on the rows, in row order: one per row with an unchecked icon. */
  function RowClicks(rows: seq<RowView>): (clicks: seq<Action>)
    ensures forall a :: a in clicks ==> a.ClickRow?
  {
    if rows == [] then []
    else RowClicks(rows[..|rows| - 1]) + (if Effect(rows[|rows| - 1]) == Clicked then [ClickRow(|rows| - 1)] else [])
  }

  /** `items_checked <= items_total <= number of rows`, and there are as many clicks as checked items. */
  lemma {:induction false} CountsBounded(rows: seq<RowView>)
    ensures CheckedCount(rows) <= TotalCount(rows) <= |rows|
    ensures |RowClicks(rows)| == CheckedCount(rows)
  {
    if rows != [] {
      CountsBounded(rows[..|rows| - 1]);
    }
  }

  /** Row `i` is clicked iff it shows an unchecked icon; every click is a `ClickRow`, in increasing row order. */
  lemma {:induction false} RowClicksExactly(rows: seq<RowView>)
    ensures forall i: nat :: ClickRow(i) in RowClicks(rows) <==> i < |rows| && Effect(rows[i]) == Clicked
    ensures forall j :: 0 <= j < |RowClicks(rows)| ==> RowClicks(rows)[j].ClickRow? && RowClicks(rows)[j].index < |rows|
    ensures forall j, k :: 0 <= j < k < |RowClicks(rows)| ==> RowClicks(rows)[j].index < RowClicks(rows)[k].index
  {
    if rows != [] {
      var n := |rows| - 1;
      var init := rows[..n];
      var last := if Effect(rows[n]) == Clicked then [ClickRow(n)] else [];
      var c := RowClicks(rows);
      RowClicksExactly(init);
      assert c == RowClicks(init) + last;
      forall i: nat
        ensures ClickRow(i) in c <==> i < |rows| && Effect(rows[i]) == Clicked
      {
        if i < n {
          assert init[i] == rows[i];
        }
      }
      forall j | 0 <= j < |c|
        ensures c[j].ClickRow? && c[j].index < |rows|
      {
        if j < |RowClicks(init)| {
          assert c[j] == RowClicks(init)[j];
        }
      }
      forall j, k | 0 <= j < k < |c|
        ensures c[j].index < c[k].index
      {
        if k < |RowClicks(init)| {
          assert c[j] == RowClicks(init)[j] && c[k] == RowClicks(init)[k];
        } else {
          assert c[j] == RowClicks(init)[j];
        }
      }
    }
  }

  /** The counters of `a + b` are those of `a` plus those of `b`. */
  lemma {:induction false} CountsAppend(a: seq<RowView>, b: seq<RowView>)
    ensures CheckedCount(a + b) == CheckedCount(a) + CheckedCount(b)
    ensures TotalCount(a + b) == TotalCount(a) + TotalCount(b)
    decreases |b|
  {
    if b == [] {
      assert a + b == a;
    } else {
      assert (a + b)[..|a + b| - 1] == a + b[..|b| - 1];
      assert (a + b)[|a + b| - 1] == b[|b| - 1];
      CountsAppend(a, b[..|b| - 1]);
    }
  }

  /** A header row, a row without checkbox cell or icons, or a row that raised changes no counter. */
  lemma UntouchedRowNeutral(a: seq<RowView>, row: RowView, b: seq<RowView>)
    requires Effect(row) == Untouched
    ensures CheckedCount(a + [row] + b) == CheckedCount(a + b)
    ensures TotalCount(a + [row] + b) == TotalCount(a + b)
  {
    CountsAppend(a + [row], b);
    CountsAppend(a, [row]);
    CountsAppend(a, b);
    assert [row][..0] == [];
  }

  /** A row showing only the checked icon adds one to `items_total` and nothing to `items_checked`. */
  lemma CheckedRowCounts(a: seq<RowView>, b: seq<RowView>)
    ensures var row := DataRow(Some(Icons(false, true)));
      && TotalCount(a + [row] + b) == TotalCount(a + b) + 1
      && CheckedCount(a + [row] + b) == CheckedCount(a + b)
  {
    var row := DataRow(Some(Icons(false, true)));
    CountsAppend(a + [row], b);
    CountsAppend(a, [row]);
    CountsAppend(a, b);
    assert [row][..0] == [];
  }

  /** A row showing the unchecked icon (whatever else it shows) adds one to both counters. */
  lemma UncheckedRowCounts(a: seq<RowView>, checked: bool, b: seq<RowView>)
    ensures var row := DataRow(Some(Icons(true, checked)));
      && TotalCount(a + [row] + b) == TotalCount(a + b) + 1
      && CheckedCount(a + [row] + b) == CheckedCount(a + b) + 1
  {
    var row := DataRow(Some(Icons(true, checked)));
    CountsAppend(a + [row], b);
    CountsAppend(a, [row]);
    CountsAppend(a, b);
    assert [row][..0] == [];
  }

  /** What the walk of a category may do: open the task list, click buttons and rows, and send its own notices. */
  predicate WalkerStep(a: Action) {
    match a
    case OpenTasksByLink => true
    case OpenTasksByUrl => true
    case ClickCategoryButton(_) => true
    case ClickRow(_) => true
    case Notify(n) => n.NavigationFailed? || n.Processing? || n.CategoryDone? || n.CategoryError?
    case _ => false
  }

  /**
   * What `process_production_page` sends and does for one category: after a
   * failed navigation, a failure notice; otherwise a processing notice, then
   * an error notice if the task table does not appear within 10 s, or the
   * row clicks and a notice with both counters.
   */
  function Process(name: string, page: TaskPage): (r: seq<Action>)
    ensures forall a :: a in r ==> WalkerStep(a)
  {
    var nav := Navigate(name, page);
    if !nav.ok then nav.actions + [Notify(NavigationFailed(name))]
    else if !page.tableShown then nav.actions + [Notify(Processing(name)), Notify(CategoryError(name))]
    else
      nav.actions + [Notify(Processing(name))] + RowClicks(page.rows)
        + [Notify(CategoryDone(name, CheckedCount(page.rows), TotalCount(page.rows)))]
  }

  /** The row clicks among some actions, in their order. */
  function ClicksIn(actions: seq<Action>): seq<Action> {
    if actions == [] then []
    else
      var last := actions[|actions| - 1];
      ClicksIn(actions[..|actions| - 1]) + (if last.ClickRow? then [last] else [])
  }

  lemma {:induction false} ClicksInAppend(a: seq<Action>, b: seq<Action>)
    ensures ClicksIn(a + b) == ClicksIn(a) + ClicksIn(b)
    decreases |b|
  {
    if b == [] {
      assert a + b == a;
    } else {
      assert (a + b)[..|a + b| - 1] == a + b[..|b| - 1];
      ClicksInAppend(a, b[..|b| - 1]);
    }
  }

  lemma {:induction false} ClicksInRowClicks(rows: seq<RowView>)
    ensures ClicksIn(RowClicks(rows)) == RowClicks(rows)
  {
    if rows != [] {
      var init := rows[..|rows| - 1];
      var last := if Effect(rows[|rows| - 1]) == Clicked then [ClickRow(|rows| - 1)] else [];
      ClicksInRowClicks(init);
      ClicksInAppend(RowClicks(init), last);
    }
  }

  lemma {:induction false} ClicksInNone(actions: seq<Action>)
    requires forall a :: a in actions ==> !a.ClickRow?
    ensures ClicksIn(actions) == []
  {
    if actions != [] {
      assert actions[|actions| - 1] in actions;
      ClicksInNone(actions[..|actions| - 1]);
    }
  }

  /** Getting to a category's task list clicks no row. */
  lemma NavigateNoRowClick(name: string, page: TaskPage)
    ensures forall a :: a in Navigate(name, page).actions ==> !a.ClickRow?
  {
  }

  /**
   * The rows a category's walk clicks, in order: exactly the rows with an
   * unchecked icon once the button was clicked and the table appeared, and
   * none otherwise.
   */
  lemma ProcessClicks(name: string, page: TaskPage)
    ensures var nav := Navigate(name, page);
      ClicksIn(Process(name, page)) == if nav.ok && page.tableShown then RowClicks(page.rows) else []
  {
    var nav := Navigate(name, page);
    NavigateNoRowClick(name, page);
    if nav.ok && page.tableShown {
      var head := nav.actions + [Notify(Processing(name))];
      var done := [Notify(CategoryDone(name, CheckedCount(page.rows), TotalCount(page.rows)))];
      assert Process(name, page) == head + RowClicks(page.rows) + done;
      ClicksInNone(head);
      ClicksInNone(done);
      ClicksInAppend(head, RowClicks(page.rows));
      ClicksInAppend(head + RowClicks(page.rows), done);
      ClicksInRowClicks(page.rows);
    } else {
      ClicksInNone(Process(name, page));
    }
  }

  /**
   * Rows are touched only after the category's button was clicked and the
   * table appeared, and the closing notice reports the counters of exactly
   * those rows.
   */
  lemma ProcessOutcome(name: string, page: TaskPage)
    ensures var p := Process(name, page);
      (exists i :: ClickRow(i) in p) ==> Navigate(name, page).ok && page.tableShown
    ensures var p := Process(name, page);
      p[|p| - 1] == if !Navigate(name, page).ok then Notify(NavigationFailed(name))
        else if !page.tableShown then Notify(CategoryError(name))
        else Notify(CategoryDone(name, CheckedCount(page.rows), TotalCount(page.rows)))
  {
  }
}
