/**
 * The category cascade of the entry-point menu: the options of the main
 * select, and the decision made when a main category is picked.
 */
module Selection {
  import opened Wrappers
  import opened TicketStore

  /** The value of the single placeholder option shown when no category exists. */
  const NoneSentinel: string := "none"

  /** Some row of the table has `m` as its main category. */
  predicate HasMain(rows: seq<CategoryRow>, m: string) {
    exists i :: 0 <= i < |rows| && rows[i].main == m
  }

  /** A row the sub-category query keeps for `main`: `sub IS NOT NULL` in SQL and
      non-empty in the comprehension's `if row[0]`. */
  predicate Qualifies(row: CategoryRow, main: string) {
    row.main == main && row.sub.Some? && row.sub.value != ""
  }

  /** `SELECT DISTINCT main FROM categories`. The order of the result is the model's
      choice (first occurrence); callers may rely only on membership and distinctness. */
  function DistinctMains(rows: seq<CategoryRow>): (r: seq<string>)
    ensures forall m :: m in r <==> HasMain(rows, m)
    ensures Distinct(r)
    ensures |r| <= |rows|
  {
    if rows == [] then []
    else
      var init := rows[..|rows| - 1];
      var prev := DistinctMains(init);
      var m := rows[|rows| - 1].main;
      assert forall x :: HasMain(init, x) ==> HasMain(rows, x) by {
        forall x | HasMain(init, x) ensures HasMain(rows, x) {
          var i :| 0 <= i < |init| && init[i].main == x;
          assert rows[i].main == x;
        }
      }
      assert forall x :: HasMain(rows, x) ==> HasMain(init, x) || x == m by {
        forall x | HasMain(rows, x) ensures HasMain(init, x) || x == m {
          var i :| 0 <= i < |rows| && rows[i].main == x;
          if i < |init| { assert init[i].main == x; }
        }
      }
      assert HasMain(rows, m) by { assert rows[|rows| - 1].main == m; }
      if m in prev then prev else prev + [m]
  }

  /** The options of the main select (`MainCategorySelect.__init__`): the distinct
      main categories, or the lone `"none"` placeholder when the table is empty. */
  function MainOptions(rows: seq<CategoryRow>): (r: seq<string>)
    ensures |r| >= 1
    ensures rows == [] ==> r == [NoneSentinel]
    ensures rows != [] ==> (forall m :: m in r <==> HasMain(rows, m)) && Distinct(r)
  {
    var mains := DistinctMains(rows);
    if mains == [] then
      assert rows != [] ==> HasMain(rows, rows[0].main);
      [NoneSentinel]
    else mains
  }

  /** The sub-category query for `main`: every qualifying row's sub, in table
      order, duplicates kept. */
  function SubsOf(rows: seq<CategoryRow>, main: string): (r: seq<string>)
    ensures forall s :: s in r <==> s != "" && exists i :: 0 <= i < |rows| && rows[i] == CategoryRow(main, Some(s))
    ensures |r| <= |rows|
  {
    if rows == [] then []
    else
      var init := rows[..|rows| - 1];
      var last := rows[|rows| - 1];
      var prev := SubsOf(init, main);
      assert forall s, i :: 0 <= i < |init| && init[i] == CategoryRow(main, Some(s)) ==> rows[i] == CategoryRow(main, Some(s));
      assert forall s, i :: 0 <= i < |rows| - 1 && rows[i] == CategoryRow(main, Some(s)) ==> init[i] == CategoryRow(main, Some(s));
      if Qualifies(last, main) then prev + [last.sub.value] else prev
  }

  /** What picking a value in the main select leads to. */
  datatype MainOutcome =
    | NoCategoriesNotice                            // "register categories first", nothing created
    | SubPrompt(main: string, options: seq<string>) // a second select, nothing created yet
    | CreateTicket(category: string)                // a ticket channel under this name

  /** `MainCategorySelect.callback`, evaluated against the table as it is when the
      selection arrives. */
  function SelectMain(rows: seq<CategoryRow>, value: string): (o: MainOutcome)
    ensures o.NoCategoriesNotice? <==> value == NoneSentinel
    ensures o.SubPrompt? <==> value != NoneSentinel && exists i :: 0 <= i < |rows| && Qualifies(rows[i], value)
    ensures o.SubPrompt? ==> o.main == value
    ensures o.SubPrompt? ==> forall s :: s in o.options <==>
              s != "" && exists i :: 0 <= i < |rows| && rows[i] == CategoryRow(value, Some(s))
    ensures o.CreateTicket? ==> o.category == value
  {
    if value == NoneSentinel then NoCategoriesNotice
    else
      var subs := SubsOf(rows, value);
      if subs != [] then
        assert subs[0] in subs;
        SubPrompt(value, subs)
      else
        CreateTicket(value)
  }

  /** The second prompt lists exactly the sub query's result, in order and with duplicates. */
  lemma SubPromptListsSubs(rows: seq<CategoryRow>, value: string)
    requires SelectMain(rows, value).SubPrompt?
    ensures SelectMain(rows, value).options == SubsOf(rows, value)
  {
  }

  /** Registering a row appends its sub to that main's list (even if it is already
      there), and leaves the list alone otherwise. */
  lemma SubsAfterAddCategory(rows: seq<CategoryRow>, row: CategoryRow, main: string)
    ensures SubsOf(rows + [row], main) ==
            if Qualifies(row, main) then SubsOf(rows, main) + [row.sub.value] else SubsOf(rows, main)
  {
    assert (rows + [row])[..|rows|] == rows;
  }

  /** Registering the same sub twice lists it twice. */
  lemma DuplicateSubsKept(rows: seq<CategoryRow>, main: string, sub: string)
    requires sub != ""
    ensures var twice := rows + [CategoryRow(main, Some(sub))] + [CategoryRow(main, Some(sub))];
            SubsOf(twice, main) == SubsOf(rows, main) + [sub, sub]
  {
    var row := CategoryRow(main, Some(sub));
    SubsAfterAddCategory(rows, row, main);
    SubsAfterAddCategory(rows + [row], row, main);
  }

  /** A main category literally named `"none"` is listed in the menu (its option's
      value equals the empty-table placeholder's) and has sub-categories, yet picking
      it gives the "no categories" notice: its subs can never be reached. */
  lemma NoneCategoryShadowed(rows: seq<CategoryRow>, k: nat)
    requires k < |rows| && Qualifies(rows[k], NoneSentinel)
    ensures NoneSentinel in MainOptions(rows)
    ensures rows[k].sub.value in SubsOf(rows, NoneSentinel)
    ensures SelectMain(rows, NoneSentinel) == NoCategoriesNotice
  {
    assert HasMain(rows, NoneSentinel) by { assert rows[k].main == NoneSentinel; }
    assert rows[k] == CategoryRow(NoneSentinel, Some(rows[k].sub.value));
  }

  /** Once a main has any non-empty sub, a row of that main without a sub can no
      longer produce a ticket under the main's own name. */
  lemma MixedMainNeverLeaf(rows: seq<CategoryRow>, main: string, k: nat)
    requires k < |rows| && Qualifies(rows[k], main)
    ensures !SelectMain(rows, main).CreateTicket?
  {
  }
}
