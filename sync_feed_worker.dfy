/**
 * The background feed sync of core/work/sync_feed/SyncFeedWorker.kt:
 * fetch all posts, clear the cache, write the fetched posts. The worker
 * reaches the cache through another data-source interface, whose
 * implementation is outside this model; it is taken to behave as the
 * cache data source modelled in CachedPosts.
 */
module SyncFeed {
  import opened Wrappers
  import opened Posts
  import opened CachedPosts

  /** The outcomes WorkManager distinguishes. */
  datatype WorkResult = Success | Retry | Failure

  /** What the remote getAllPosts call does: return a list, or throw. */
  datatype Fetch = Fetched(posts: seq<Post>) | HttpException(code: int) | IOException

  const SyncingMessage := "Syncing Feed ......."
  const FailedMessage := "Failed to sync feed"

  /**
   * doWork. `fetch` is the remote call's outcome and `insertFault` the
   * index of the cache insert that throws an IOException, if any. The
   * returned notifications are the texts shown, in order.
   */
  method DoWork(cache: CachedPostsDataSource, fetch: Fetch, insertFault: Option<nat>)
    returns (result: WorkResult, notifications: seq<string>)
    requires cache.Valid()
    modifies cache
    ensures cache.Valid()
    ensures result != Retry
    ensures |notifications| >= 1 && notifications[0] == SyncingMessage
    // A failed fetch leaves the cache as it was.
    ensures !fetch.Fetched? ==>
      result == Failure && cache.rows == old(cache.rows) && notifications == [SyncingMessage, FailedMessage]
    // A successful sync leaves exactly the fetched posts.
    ensures fetch.Fetched? && (insertFault.None? || insertFault.value >= |fetch.posts|) ==>
      result == Success && notifications == [SyncingMessage]
      && cache.rows == UpsertAll([], ToCacheEntities(fetch.posts))
    // With distinct ids, a successful sync leaves the cache reading back as the fetched list.
    ensures result == Success && fetch.Fetched?
            && (forall i, j :: 0 <= i < j < |fetch.posts| ==> fetch.posts[i].id != fetch.posts[j].id) ==>
      ToExternalModels(cache.rows) == fetch.posts
    // A failing insert leaves the cache cleared and only partly refilled.
    ensures fetch.Fetched? && insertFault.Some? && insertFault.value < |fetch.posts| ==>
      result == Failure && notifications == [SyncingMessage, FailedMessage]
      && cache.rows == UpsertAll([], ToCacheEntities(fetch.posts[..insertFault.value]))
  {
    notifications := [SyncingMessage];
    match fetch
    case HttpException(_) =>
      notifications := notifications + [FailedMessage];
      // Result.retry() is built and dropped; the worker reports failure.
      var discarded := Retry;
      result := Failure;
    case IOException =>
      notifications := notifications + [FailedMessage];
      result := Failure;
    case Fetched(posts) =>
      cache.DeleteAllPostsFromCache();
      var ok := cache.InsertCachedPosts(posts, insertFault);
      if ok {
        if forall i, j :: 0 <= i < j < |posts| ==> posts[i].id != posts[j].id {
          ReplaceRoundTrip(posts);
        }
        result := Success;
      } else {
        notifications := notifications + [FailedMessage];
        result := Failure;
      }
  }
}
