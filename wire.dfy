/**
 * The page and the backend put together: the page's reading of the
 * `GET /questions` response, and what the mismatches between the two sides
 * do to the board.
 */
module Wire {
  import opened Wrappers
  import opened Strings
  import opened QuestionModel
  import B = Backend
  import IndexPage
  import Feed = QuestionFeed

  const MsPerSecond: int := 1000

  /**
   * The page's view of one response element. `created_at` is a naive UTC
   * time with no zone designator, which `new Date(...)` reads as browser-local
   * time: the instant it yields is `browserOffsetMs` earlier than the UTC one
   * (the browser's zone is UTC plus `browserOffsetMs`). The backend leaves out
   * `is_resolved`, so `question.is_resolved` is `undefined` on the page; the
   * only uses of it are a ternary and a `!`, where `undefined` acts as `false`.
   */
  function Decode(item: B.ListedQuestion, browserOffsetMs: int): (q: IndexPage.ApiQuestion)
    ensures q.id == item.id && q.content == item.content
    ensures q.createdAtMs + browserOffsetMs == item.createdAt * MsPerSecond
    ensures !q.isResolved
  {
    IndexPage.ApiQuestion(item.id, item.content, item.createdAt * MsPerSecond - browserOffsetMs, false)
  }

  function DecodeAll(items: seq<B.ListedQuestion>, browserOffsetMs: int): (qs: seq<IndexPage.ApiQuestion>)
    ensures |qs| == |items|
    ensures forall i :: 0 <= i < |items| ==> qs[i] == Decode(items[i], browserOffsetMs)
  {
    seq(|items|, i requires 0 <= i < |items| => Decode(items[i], browserOffsetMs))
  }

  /** The rows `GET /questions` sends, in the order it sends them, when asked at `now`. */
  function Served(rows: seq<Question>, now: int): seq<B.ListedQuestion> {
    B.Listing(B.SortNewestFirst(B.Pruned(rows, B.KstMidnightUtc(now))))
  }

  /**
   * The feed questions the page shows for the table as it stands when the
   * page fetches at `now`: one for each row created since today's KST
   * midnight, each carrying the key and the content of the entry at its place.
   */
  function ServedQuestions(rows: seq<Question>, now: int, browserOffsetMs: int): (qs: seq<Feed.Question>)
    ensures |qs| == |B.Pruned(rows, B.KstMidnightUtc(now))|
    ensures forall i :: 0 <= i < |qs| ==>
      qs[i].id == IntToDecimal(Served(rows, now)[i].id) && qs[i].content == Served(rows, now)[i].content
  {
    var kept := B.Pruned(rows, B.KstMidnightUtc(now));
    assert |B.SortNewestFirst(kept)| == |kept| by {
      assert |multiset(B.SortNewestFirst(kept))| == |multiset(kept)|;
    }
    var data := Some(DecodeAll(Served(rows, now), browserOffsetMs));
    assert forall i :: 0 <= i < |IndexPage.Project(data)| ==>
      IndexPage.Project(data)[i] == IndexPage.ToFeedQuestion(IndexPage.Fetched(data)[i], i);
    IndexPage.Project(data)
  }

  /**
   * Whatever the table holds, every question reaches the page unresolved:
   * no card is styled resolved, every button offers to resolve, and every
   * click asks for `is_resolved = true`.
   */
  lemma ServedQuestionsLookUnresolved(rows: seq<Question>, now: int, browserOffsetMs: int, isUpdating: bool, i: nat)
    requires i < |ServedQuestions(rows, now, browserOffsetMs)|
    ensures var qs := ServedQuestions(rows, now, browserOffsetMs);
      && !qs[i].isResolved
      && Feed.StyleOf(qs[i], i) != Feed.ResolvedStyle
      && Feed.CardFor(qs[i], i, isUpdating).buttonLabel == Feed.ResolveLabel
      && IndexPage.ToggleRequest(qs[i].id, qs[i].isResolved).isResolved
  {
    IndexPage.ProjectedAt(Some(DecodeAll(Served(rows, now), browserOffsetMs)), i);
  }

  /**
   * The feed lists today's questions newest first, with only the first one
   * marked new.
   */
  lemma ServedQuestionsNewestFirst(rows: seq<Question>, now: int, browserOffsetMs: int)
    ensures var qs := ServedQuestions(rows, now, browserOffsetMs);
      && (forall i, j :: 0 <= i < j < |qs| ==> qs[i].timestampMs >= qs[j].timestampMs)
      && (forall i :: 0 <= i < |qs| ==> (qs[i].isNew <==> i == 0))
  {
    var kept := B.Pruned(rows, B.KstMidnightUtc(now));
    var listed := Served(rows, now);
    B.ListingOfSorted(kept);
    var data := Some(DecodeAll(listed, browserOffsetMs));
    var qs := ServedQuestions(rows, now, browserOffsetMs);
    forall i, j | 0 <= i < j < |qs| ensures qs[i].timestampMs >= qs[j].timestampMs {
      IndexPage.ProjectedAt(data, i);
      IndexPage.ProjectedAt(data, j);
      assert listed[i].createdAt >= listed[j].createdAt;
    }
    forall i | 0 <= i < |qs| ensures qs[i].isNew <==> i == 0 {
      IndexPage.ProjectedAt(data, i);
    }
  }

  /** The clock a card shows for an entry: the page's nine-hour shift, then Seoul formatting. */
  function ShownClockMs(item: B.ListedQuestion, index: nat, browserOffsetMs: int): int {
    Feed.WallClockMs(IndexPage.ToFeedQuestion(Decode(item, browserOffsetMs), index).timestampMs)
  }

  /**
   * The local-time parse takes the browser's offset off, and the shift and
   * the Seoul formatting add nine hours each.
   */
  lemma ShownClock(item: B.ListedQuestion, index: nat, browserOffsetMs: int)
    ensures ShownClockMs(item, index, browserOffsetMs)
      == item.createdAt * MsPerSecond + 18 * 60 * 60 * 1000 - browserOffsetMs
  {
  }

  /** On a browser whose zone is UTC the clock shown is eighteen hours ahead of the UTC creation time. */
  lemma ShownClockOnUtcBrowser(item: B.ListedQuestion, index: nat)
    ensures ShownClockMs(item, index, 0) == item.createdAt * MsPerSecond + 18 * 60 * 60 * 1000
  {
    ShownClock(item, index, 0);
  }

  /**
   * On a browser whose zone is KST the parse and the shift cancel, and the
   * card shows the Seoul wall clock of the UTC creation time, nine hours ahead.
   */
  lemma ShownClockOnKstBrowser(item: B.ListedQuestion, index: nat)
    ensures ShownClockMs(item, index, Feed.SeoulOffsetMs) == Feed.WallClockMs(item.createdAt * MsPerSecond)
  {
    ShownClock(item, index, Feed.SeoulOffsetMs);
  }

  /** The page's toggle request reaches no handler: the backend has no `PATCH` route. */
  lemma ToggleHasNoRoute(id: string, currentValue: bool)
    ensures B.Route(B.Patch, IndexPage.ToggleRequest(id, currentValue).path) == None
  {
    B.NoPatchRoute(IndexPage.ToggleRequest(id, currentValue).path);
  }

  /**
   * A toggle sent to this backend: the request finds no handler, so the
   * mutation fails, is logged as failed, and invalidates nothing.
   */
  method ToggleAgainstBackend(coordinator: IndexPage.MutationCoordinator, id: string, currentValue: bool)
    returns (ok: bool)
    requires coordinator.Valid()
    modifies coordinator
    ensures coordinator.Valid() && !ok
    ensures coordinator.attempts
      == old(coordinator.attempts) + [IndexPage.Attempt(IndexPage.PatchQuestion(IndexPage.ToggleRequest(id, currentValue)), false)]
    ensures coordinator.invalidations == old(coordinator.invalidations)
  {
    ToggleHasNoRoute(id, currentValue);
    var routed := B.Route(B.Patch, IndexPage.ToggleRequest(id, currentValue).path).Some?;
    ok := coordinator.ToggleResolved(id, currentValue, routed);
  }

  /** Unique keys in the table give unique React keys in the feed. */
  lemma ServedKeysDistinct(rows: seq<Question>, now: int, browserOffsetMs: int)
    requires UniqueIds(rows)
    ensures var qs := ServedQuestions(rows, now, browserOffsetMs);
      forall i, j :: 0 <= i < j < |qs| ==> qs[i].id != qs[j].id
  {
    var kept := B.Pruned(rows, B.KstMidnightUtc(now));
    B.PrunedUniqueIds(rows, B.KstMidnightUtc(now));
    var sorted := B.SortNewestFirst(kept);
    assert UniqueIds(sorted) by {
      B.SortKeepsUniqueIds(kept);
    }
    var listed := B.Listing(sorted);
    forall i, j | 0 <= i < j < |listed| ensures listed[i].id != listed[j].id {
      B.ListingAt(sorted, i);
      B.ListingAt(sorted, j);
    }
    IndexPage.ProjectedIdsDistinct(Some(DecodeAll(listed, browserOffsetMs)));
  }
}
