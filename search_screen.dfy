/**
 * The search screen state holder of
 * presentation/screens/search_screen/SearchScreenViewModel.kt. A term of
 * more than three characters launches a search job and cancels the one
 * held before; the job's response is a separate step, which only a job
 * still held and not cancelled can take.
 */
module SearchScreen {
  import opened Wrappers
  import opened Posts
  import opened UserDataStore

  /** The search endpoint's payload. */
  datatype SearchResponse = SearchResponse(users: seq<User>, posts: seq<Post>)

  /** NetworkResult: the repository's three outcomes of a remote call. */
  datatype NetworkResult<T> = Success(data: T) | Error(code: int, message: string) | Exception(message: string)

  /** A launched search job: its launch number, its term, and whether it is still running. */
  datatype SearchJob = SearchJob(id: nat, term: string, active: bool)

  /** A term longer than three characters starts a search. */
  predicate StartsSearch(term: string)
  {
    |term| > 3
  }

  /** A term shorter than two characters resets isFound after a delay. */
  predicate ResetsFound(term: string)
  {
    |term| < 2
  }

  /** The two cases are disjoint, and a term of two or three characters does neither. */
  lemma TermCases(term: string)
    ensures !(StartsSearch(term) && ResetsFound(term))
    ensures !StartsSearch(term) && !ResetsFound(term) <==> 2 <= |term| <= 3
  {
  }

  class SearchScreenViewModel {
    var searchTerm: string
    var isFound: bool
    var isLoading: bool
    var isError: bool
    var errorMsg: string
    var searchPosts: seq<Post>
    var searchUsers: seq<User>
    var searchType: string
    var searchJob: Option<SearchJob>
    /** Jobs launched so far; the next job's number. */
    var launched: nat
    /** Delayed isFound resets launched and not yet fired (these are never cancelled). */
    var pendingFoundResets: nat

    /** The held job, if any, was the last one launched. */
    ghost predicate Valid()
      reads this
    {
      searchJob.Some? ==> searchJob.value.id + 1 == launched
    }

    /** `searchTypePosts` is Constants.SEARCH_TYPE_POSTS, whose value is outside this model. */
    constructor (searchTypePosts: string)
      ensures Valid()
      ensures searchTerm == "" && isFound && !isLoading && !isError && errorMsg == ""
      ensures searchPosts == [] && searchUsers == [] && searchType == searchTypePosts
      ensures searchJob == None && launched == 0 && pendingFoundResets == 0
    {
      searchTerm := "";
      isFound := true;
      isLoading := false;
      isError := false;
      errorMsg := "";
      searchPosts := [];
      searchUsers := [];
      searchType := searchTypePosts;
      searchJob := None;
      launched := 0;
      pendingFoundResets := 0;
    }

    /** onChangeSearchType */
    method OnChangeSearchType(t: string)
      modifies this
      ensures searchType == t
      ensures searchTerm == old(searchTerm) && isLoading == old(isLoading) && isFound == old(isFound)
      ensures searchPosts == old(searchPosts) && searchUsers == old(searchUsers)
      ensures searchJob == old(searchJob) && launched == old(launched)
      ensures pendingFoundResets == old(pendingFoundResets)
      ensures isError == old(isError) && errorMsg == old(errorMsg)
    {
      searchType := t;
    }

    /**
     * onChangeSearchTerm: loading is switched on and the term stored; a
     * long term replaces the held job by a new running one for that term
     * (the old one is cancelled), a very short term schedules a reset of
     * isFound. Results and the error fields are not touched here.
     */
    method OnChangeSearchTerm(term: string)
      requires Valid()
      modifies this
      ensures Valid()
      ensures isLoading && searchTerm == term
      ensures StartsSearch(term) ==>
        searchJob == Some(SearchJob(old(launched), term, true)) && launched == old(launched) + 1
      ensures !StartsSearch(term) ==> searchJob == old(searchJob) && launched == old(launched)
      ensures pendingFoundResets == old(pendingFoundResets) + (if ResetsFound(term) then 1 else 0)
      ensures isFound == old(isFound) && searchType == old(searchType)
      ensures searchPosts == old(searchPosts) && searchUsers == old(searchUsers)
      ensures isError == old(isError) && errorMsg == old(errorMsg)
    {
      isLoading := true;
      searchTerm := term;
      if |term| > 3 {
        searchJob := Some(SearchJob(launched, term, true));
        launched := launched + 1;
      } else if |term| < 2 {
        pendingFoundResets := pendingFoundResets + 1;
      }
    }

    /**
     * The search job numbered `jobId` receives its response. Only the held
     * running job gets this far; a cancelled or finished one changes
     * nothing. Any outcome ends loading; only a success replaces the
     * results, and neither failure sets the error fields.
     */
    method OnSearchResponse(jobId: nat, response: NetworkResult<SearchResponse>)
      requires Valid()
      modifies this
      ensures Valid()
      ensures var live := old(searchJob).Some? && old(searchJob).value.id == jobId && old(searchJob).value.active;
        if !live then
          searchJob == old(searchJob) && isLoading == old(isLoading)
          && searchPosts == old(searchPosts) && searchUsers == old(searchUsers)
        else
          searchJob == Some(old(searchJob).value.(active := false)) && !isLoading
          && (response.Success? ==> searchPosts == response.data.posts && searchUsers == response.data.users)
          && (!response.Success? ==> searchPosts == old(searchPosts) && searchUsers == old(searchUsers))
      ensures searchTerm == old(searchTerm) && isFound == old(isFound) && searchType == old(searchType)
      ensures isError == old(isError) && errorMsg == old(errorMsg)
      ensures launched == old(launched) && pendingFoundResets == old(pendingFoundResets)
    {
      match searchJob
      case Some(job) =>
        if job.id == jobId && job.active {
          searchJob := Some(job.(active := false));
          match response
          case Success(data) =>
            isLoading := false;
            searchUsers := data.users;
            searchPosts := data.posts;
          case Error(_, _) =>
            isLoading := false;
          case Exception(_) =>
            isLoading := false;
        }
      case None =>
    }

    /** A delayed reset of a very short term fires: isFound becomes true. */
    method OnFoundResetFires()
      requires pendingFoundResets > 0
      modifies this
      ensures isFound && pendingFoundResets == old(pendingFoundResets) - 1
      ensures searchTerm == old(searchTerm) && isLoading == old(isLoading) && searchType == old(searchType)
      ensures searchPosts == old(searchPosts) && searchUsers == old(searchUsers)
      ensures searchJob == old(searchJob) && launched == old(launched)
      ensures isError == old(isError) && errorMsg == old(errorMsg)
    {
      isFound := true;
      pendingFoundResets := pendingFoundResets - 1;
    }
  }
}
