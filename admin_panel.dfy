// The admin page of js/admin.js as a state machine: the `adminLoggedIn`
// flag of session storage, the refresh interval, which of the login form
// and the admin content is visible, the filter selects and the rows of the
// results table. It reads and clears the same result store the quiz writes.
module AdminPanels {
  import opened Options
  import opened Seqs
  import opened QuizTypes
  import opened ResultStore
  import opened AdminView
  import CsvExport

  class AdminPanel {
    const store: Store
    /** sessionStorage 'adminLoggedIn' === 'true'. */
    var loggedIn: bool
    /** Whether the 5-second refresh interval is scheduled. */
    var refreshActive: bool
    /** The admin content is shown (and the login form hidden). */
    var contentShown: bool
    var loginErrorShown: bool
    var passwordField: string
    /** The course names offered after 'All Courses'. */
    var courseOptions: seq<string>
    var courseFilter: string
    var resultFilter: string
    var scoreRange: string
    /** The rows of the results table, top to bottom. */
    var rows: seq<ResultRecord>

    /** The course select shows 'All Courses' or one of the offered names. */
    predicate FilterOffered()
      reads this
    {
      courseFilter == "all" || courseFilter in courseOptions
    }

    predicate Valid()
      reads this
    {
      (contentShown ==> loggedIn) && (refreshActive ==> contentShown) && FilterOffered()
    }

    /** The page before DOMContentLoaded; `flag` is what session storage holds. */
    constructor(store: Store, flag: bool)
      ensures Valid() && this.store == store && loggedIn == flag
      ensures !refreshActive && !contentShown && !loginErrorShown && passwordField == []
      ensures courseOptions == [] && courseFilter == "all" && resultFilter == "all" && scoreRange == "all"
      ensures rows == []
    {
      this.store := store;
      loggedIn := flag;
      refreshActive := false;
      contentShown := false;
      loginErrorShown := false;
      passwordField := [];
      courseOptions := [];
      courseFilter := "all";
      resultFilter := "all";
      scoreRange := "all";
      rows := [];
    }

    /**
     * loadAdminPanel: rebuild the course options from the stored records,
     * keep the previous course choice only if it is still offered, and list
     * every stored record newest first.
     */
    method LoadAdminPanel()
      requires Valid()
      modifies this
      ensures Valid() && courseOptions == UniqueCourses(store.records)
      ensures courseFilter == RestoredFilter(old(courseFilter), courseOptions)
      ensures NewestFirst(rows) && multiset(rows) == multiset(store.records)
      ensures loggedIn == old(loggedIn) && refreshActive == old(refreshActive) && contentShown == old(contentShown)
      ensures loginErrorShown == old(loginErrorShown) && passwordField == old(passwordField)
      ensures resultFilter == old(resultFilter) && scoreRange == old(scoreRange)
    {
      var results := store.records;
      var options := UniqueCourses(results);
      var shown := DisplayResults(results);
      courseOptions, courseFilter, rows := options, RestoredFilter(courseFilter, options), shown;
    }

    /** showAdminContent: show the content, load it, and (re)start the refresh interval. */
    method ShowAdminContent()
      requires Valid() && loggedIn
      modifies this
      ensures Valid() && contentShown && refreshActive && loggedIn
      ensures courseOptions == UniqueCourses(store.records)
      ensures courseFilter == RestoredFilter(old(courseFilter), courseOptions)
      ensures NewestFirst(rows) && multiset(rows) == multiset(store.records)
      ensures loginErrorShown == old(loginErrorShown) && passwordField == old(passwordField)
      ensures resultFilter == old(resultFilter) && scoreRange == old(scoreRange)
    {
      contentShown := true;
      LoadAdminPanel();
      refreshActive := true;
    }

    /** showLoginForm */
    method ShowLoginForm()
      requires FilterOffered() && !refreshActive
      modifies this
      ensures Valid() && !contentShown && !refreshActive
      ensures loggedIn == old(loggedIn) && rows == old(rows) && courseOptions == old(courseOptions)
      ensures courseFilter == old(courseFilter) && resultFilter == old(resultFilter) && scoreRange == old(scoreRange)
      ensures loginErrorShown == old(loginErrorShown) && passwordField == old(passwordField)
      ensures !old(contentShown) ==> unchanged(this)
    {
      contentShown := false;
    }

    /** checkAdminLogin, on page load: the content when the flag is set, the login form otherwise. */
    method CheckAdminLogin()
      requires Valid() && !refreshActive
      modifies this
      ensures Valid() && contentShown == loggedIn && refreshActive == loggedIn && loggedIn == old(loggedIn)
      ensures loggedIn ==> NewestFirst(rows) && multiset(rows) == multiset(store.records)
      ensures loggedIn ==> courseOptions == UniqueCourses(store.records) &&
                           courseFilter == RestoredFilter(old(courseFilter), courseOptions)
      ensures resultFilter == old(resultFilter) && scoreRange == old(scoreRange)
      ensures loginErrorShown == old(loginErrorShown) && passwordField == old(passwordField)
      ensures !loggedIn ==> unchanged(this)
    {
      if loggedIn {
        ShowAdminContent();
      } else {
        ShowLoginForm();
      }
    }

    /**
     * handleAdminLogin with `entered` typed into the password field: the
     * exact string logs in and shows the content; anything else shows the
     * error, clears the field and leaves the flag as it was.
     */
    method HandleAdminLogin(entered: string) returns (ok: bool)
      requires Valid() && !contentShown
      modifies this
      ensures Valid() && (ok <==> entered == AdminPassword())
      ensures ok ==> loggedIn && contentShown && refreshActive && !loginErrorShown && passwordField == entered
      ensures ok ==> NewestFirst(rows) && multiset(rows) == multiset(store.records)
      ensures ok ==> courseOptions == UniqueCourses(store.records) &&
                     courseFilter == RestoredFilter(old(courseFilter), courseOptions)
      ensures !ok ==> loggedIn == old(loggedIn) && loginErrorShown && passwordField == [] &&
                      contentShown == old(contentShown) && refreshActive == old(refreshActive) && rows == old(rows) &&
                      courseOptions == old(courseOptions) && courseFilter == old(courseFilter)
      ensures resultFilter == old(resultFilter) && scoreRange == old(scoreRange)
    {
      passwordField := entered;
      ok := passwordField == AdminPassword();
      if ok {
        loggedIn := true;
        ShowAdminContent();
        loginErrorShown := false;
      } else {
        loginErrorShown := true;
        passwordField := [];
      }
    }

    /** handleLogout (also what the inactivity timeout calls): drop the flag, stop refreshing, show the login form. */
    method HandleLogout()
      requires Valid()
      modifies this
      ensures Valid() && !loggedIn && !refreshActive && !contentShown
      ensures rows == old(rows) && courseOptions == old(courseOptions) && courseFilter == old(courseFilter)
      ensures resultFilter == old(resultFilter) && scoreRange == old(scoreRange)
      ensures loginErrorShown == old(loginErrorShown) && passwordField == old(passwordField)
    {
      loggedIn := false;
      refreshActive := false;
      ShowLoginForm();
    }

    /** filterResults: list, newest first, the stored records that pass the three selects. */
    method FilterResults()
      requires Valid()
      modifies this
      ensures Valid()
      ensures NewestFirst(rows)
      ensures multiset(rows) == multiset(Filtered(store.records, Filters(courseFilter, resultFilter, scoreRange)))
      ensures courseFilter == old(courseFilter) && resultFilter == old(resultFilter) && scoreRange == old(scoreRange)
      ensures loggedIn == old(loggedIn) && refreshActive == old(refreshActive) && contentShown == old(contentShown)
      ensures courseOptions == old(courseOptions)
      ensures loginErrorShown == old(loginErrorShown) && passwordField == old(passwordField)
    {
      var results := store.records;
      results := Filtered(results, Filters(courseFilter, resultFilter, scoreRange));
      rows := DisplayResults(results);
    }

    /** A change of one of the selects: the new values, then filterResults. */
    method ChangeFilters(course: string, result: string, range: string)
      requires Valid() && (course == "all" || course in courseOptions)
      modifies this
      ensures Valid() && courseFilter == course && resultFilter == result && scoreRange == range
      ensures NewestFirst(rows)
      ensures multiset(rows) == multiset(Filtered(store.records, Filters(course, result, range)))
      ensures loggedIn == old(loggedIn) && refreshActive == old(refreshActive) && contentShown == old(contentShown)
      ensures courseOptions == old(courseOptions)
      ensures loginErrorShown == old(loginErrorShown) && passwordField == old(passwordField)
    {
      courseFilter, resultFilter, scoreRange := course, result, range;
      FilterResults();
    }

    /**
     * One firing of the refresh interval: loadAdminPanel again, which lists
     * all stored records whatever the result and score selects say.
     */
    method RefreshTick()
      requires Valid() && refreshActive
      modifies this
      ensures Valid() && refreshActive
      ensures courseOptions == UniqueCourses(store.records)
      ensures courseFilter == RestoredFilter(old(courseFilter), courseOptions)
      ensures NewestFirst(rows) && multiset(rows) == multiset(store.records)
      ensures resultFilter == old(resultFilter) && scoreRange == old(scoreRange)
      ensures loggedIn == old(loggedIn) && contentShown == old(contentShown)
      ensures loginErrorShown == old(loginErrorShown) && passwordField == old(passwordField)
    {
      LoadAdminPanel();
    }

    /** exportToExcel: the CSV text of the stored records in storage order; no file when there are none. */
    method ExportToExcel() returns (file: Option<string>)
      ensures store.records == [] <==> file.None?
      ensures file.Some? ==> file.value == CsvExport.CsvText(store.records)
    {
      file := CsvExport.ExportToExcel(store.records);
    }

    /** clearAllResults: after confirmation the store is emptied and the panel reloaded; otherwise nothing changes. */
    method ClearAllResults(confirmed: bool)
      requires Valid()
      modifies this, store
      ensures Valid()
      ensures confirmed ==> store.records == [] && rows == [] && courseOptions == [] && courseFilter == "all"
      ensures !confirmed ==> store.records == old(store.records) && rows == old(rows) &&
                             courseOptions == old(courseOptions) && courseFilter == old(courseFilter)
      ensures !confirmed ==> unchanged(this, store)
      ensures loggedIn == old(loggedIn) && refreshActive == old(refreshActive) && contentShown == old(contentShown)
      ensures resultFilter == old(resultFilter) && scoreRange == old(scoreRange)
      ensures loginErrorShown == old(loginErrorShown) && passwordField == old(passwordField)
    {
      if confirmed {
        store.Clear();
        LoadAdminPanel();
      }
    }
  }
}
