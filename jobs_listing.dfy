/**
 * The public list of open jobs (`src/pages/Jobs.tsx`): the read narrowed by
 * the category and province selects, the category kept in the address's
 * `?category=` parameter, and the search over title and description.
 */
module JobsListing {
  import opened Wrappers
  import opened Schema
  import opened Store
  import opened Text
  import Lists

  /** A select's value narrows the read when it is neither empty nor `"all"`. */
  predicate Narrows(value: string) {
    value != "" && value != "all"
  }

  /** The filter a select adds: none, or one equality on its column. */
  function SelectFilter(column: JobColumn, value: string): (fs: seq<JobFilter>)
    ensures |fs| <= 1
  {
    if Narrows(value) then [Eq(column, value)] else []
  }

  /** The read `fetchJobs` sends: open jobs, newest first, narrowed by each select. */
  function ListingQuery(category: string, province: string): (q: JobQuery)
    ensures q.order == NewestFirst && |q.filters| >= 1 && q.filters[0] == Eq(StatusColumn, "open")
    ensures Narrows(category) <==> Eq(CategoryColumn, category) in q.filters
    ensures Narrows(province) <==> Eq(ProvinceColumn, province) in q.filters
  {
    JobQuery([Eq(StatusColumn, "open")] + SelectFilter(CategoryColumn, category) + SelectFilter(ProvinceColumn, province), NewestFirst)
  }

  /** The job a select lets through: every job when it does not narrow, else the jobs whose key it holds. */
  predicate SelectAdmits(value: string, key: string) {
    !Narrows(value) || key == value
  }

  /** A select's filter lets a job through exactly when the select admits the job's value in that column. */
  lemma SelectFilterMeaning(j: Job, column: JobColumn, value: string)
    ensures MatchesAll(j, SelectFilter(column, value)) <==> SelectAdmits(value, ColumnValue(j, column))
  {
    if Narrows(value) {
      assert SelectFilter(column, value)[0] == Eq(column, value);
    }
  }

  /** The status filter lets through exactly the open jobs. */
  lemma {:induction false} OpenFilterMeaning(j: Job)
    ensures MatchesAll(j, [Eq(StatusColumn, "open")]) <==> j.status == Open
  {
    JobStatusKeyRoundTrip(j.status);
    JobStatusKeyRoundTrip(Open);
    assert [Eq(StatusColumn, "open")][0] == Eq(StatusColumn, "open");
  }

  /** A job matches the read exactly when it is open and both selects admit it. */
  lemma {:induction false} ListingQueryMeaning(j: Job, category: string, province: string)
    ensures MatchesAll(j, ListingQuery(category, province).filters)
        <==> j.status == Open
             && SelectAdmits(category, JobCategoryKey(j.category))
             && SelectAdmits(province, ProvinceKey(j.province))
  {
    var s := [Eq(StatusColumn, "open")];
    var c := SelectFilter(CategoryColumn, category);
    var p := SelectFilter(ProvinceColumn, province);
    MatchesAllAppend(j, s, c);
    MatchesAllAppend(j, s + c, p);
    OpenFilterMeaning(j);
    SelectFilterMeaning(j, CategoryColumn, category);
    SelectFilterMeaning(j, ProvinceColumn, province);
  }

  /** The read fails exactly when a select holds a value its enumeration does not know. */
  lemma {:induction false} ListingQueryWellTyped(category: string, province: string)
    ensures (forall i | 0 <= i < |ListingQuery(category, province).filters| :: WellTyped(ListingQuery(category, province).filters[i]))
        <==> (!Narrows(category) || ParseJobCategory(category).Some?)
             && (!Narrows(province) || ParseProvince(province).Some?)
  {
    var fs := ListingQuery(category, province).filters;
    assert ParseJobStatus("open") == Some(Open);
    if Narrows(category) {
      assert fs[1] == Eq(CategoryColumn, category);
    }
    if Narrows(province) {
      assert fs[|fs| - 1] == Eq(ProvinceColumn, province);
    }
  }

  /** `filteredJobs`: title or description contains the query, ignoring case. */
  predicate Found(j: Job, search: string) {
    Includes(ToLower(j.title), ToLower(search)) || Includes(ToLower(j.description), ToLower(search))
  }

  function FilteredJobs(jobs: seq<Job>, search: string): (r: seq<Job>)
    ensures forall j :: j in r <==> j in jobs && Found(j, search)
  {
    Lists.Filter(jobs, (j: Job) => Found(j, search))
  }

  /** The search only hides jobs: what it shows keeps the order of the read. */
  lemma SearchKeepsOrder(jobs: seq<Job>, search: string)
    ensures Lists.SubsequenceOf(FilteredJobs(jobs, search), jobs)
  {
    Lists.FilterIsSubsequence(jobs, (j: Job) => Found(j, search));
  }

  /** An empty search shows every job the read returned. */
  lemma {:induction false} EmptySearchShowsAll(jobs: seq<Job>)
    ensures FilteredJobs(jobs, "") == jobs
  {
    forall i | 0 <= i < |jobs| ensures Found(jobs[i], "") {
      IncludesEmpty(ToLower(jobs[i].title));
    }
    Lists.FilterKeepsAll(jobs, (j: Job) => Found(j, ""));
  }

  /** `searchParams.get("category") || "all"`. */
  function InitialCategory(params: map<string, string>): (c: string)
    ensures c != ""
  {
    if "category" in params && params["category"] != "" then params["category"] else "all"
  }

  /** The parameters after `handleCategoryChange(value)`: `"all"` drops the parameter, any other value sets it. */
  function WithCategory(params: map<string, string>, value: string): (r: map<string, string>)
    ensures forall k | k != "category" :: (k in r <==> k in params) && (k in r ==> r[k] == params[k])
  {
    if value == "all" then params - {"category"} else params["category" := value]
  }

  /** A page opened on the address a category change left behind starts on that category. */
  lemma CategorySurvivesReload(params: map<string, string>, value: string)
    requires value != ""
    ensures InitialCategory(WithCategory(params, value)) == value
  {
  }

  /** The page's state. */
  class JobsPage {
    var searchParams: map<string, string>
    var jobs: seq<Job>
    var loading: bool
    var search: string
    var category: string
    var province: string

    constructor (params: map<string, string>)
      ensures searchParams == params && jobs == [] && loading && search == ""
      ensures category == InitialCategory(params) && province == "all"
    {
      searchParams, jobs, loading, search := params, [], true, "";
      category, province := InitialCategory(params), "all";
    }

    /** The cards the page shows. */
    function Visible(): seq<Job>
      reads this
    {
      FilteredJobs(jobs, search)
    }

    /**
     * `fetchJobs`, run whenever a select changes: a successful read
     * replaces the list, a failed one keeps it.
     */
    method FetchJobs(db: Database, answer: Result<seq<Job>, DbError>)
      requires JobsAnswer(db.tables, ListingQuery(category, province), answer)
      modifies this`jobs, this`loading
      ensures !loading
      ensures jobs == if answer.Success? then answer.value else old(jobs)
      ensures answer.Success? ==> forall j :: j in jobs <==>
        (j in db.tables.jobs.Values && j.status == Open
         && SelectAdmits(category, JobCategoryKey(j.category)) && SelectAdmits(province, ProvinceKey(j.province)))
      ensures answer.Success? ==> forall i, k | 0 <= i < k < |jobs| :: jobs[i].createdAt >= jobs[k].createdAt
    {
      loading := true;
      if answer.Success? {
        var q := ListingQuery(category, province);
        ListingQueryWellTyped(category, province);
        jobs := answer.value;
        forall j ensures j in jobs <==>
          (j in db.tables.jobs.Values && j.status == Open
           && SelectAdmits(category, JobCategoryKey(j.category)) && SelectAdmits(province, ProvinceKey(j.province)))
        {
          ListingQueryMeaning(j, category, province);
        }
      }
      loading := false;
    }

    /** `handleCategoryChange`: the select and the address's parameter follow the value. */
    method ChangeCategory(value: string)
      modifies this`category, this`searchParams
      ensures category == value && searchParams == WithCategory(old(searchParams), value)
    {
      category := value;
      searchParams := WithCategory(searchParams, value);
    }

    /** The province select, which only sets its value. */
    method ChangeProvince(value: string)
      modifies this`province
      ensures province == value
    {
      province := value;
    }
  }
}
