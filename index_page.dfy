/**
 * The page that wires the board together (QR_Code_Question/src/pages/Index.tsx):
 * the projection of fetched records into feed questions, the toggle request,
 * the session link, and the two mutations with their cache invalidation.
 */
module IndexPage {
  import opened Wrappers
  import opened Strings
  import Feed = QuestionFeed
  import opened QuestionInput

  /** A record of `GET /questions` as the page types it; `createdAtMs` is the parsed `created_at`. */
  datatype ApiQuestion = ApiQuestion(id: int, content: string, createdAtMs: int, isResolved: bool)

  /** `QUESTIONS_QUERY_KEY`, the one cache key of the page. */
  const QuestionsQueryKey: seq<string> := ["questions"]

  /** The shift the projection adds to every timestamp: nine hours in milliseconds. */
  const KstShiftMs: int := 9 * 60 * 60 * 1000

  /**
   * One element of the memo: the id as its decimal string, content and flag
   * as fetched, the time nine hours on, and new exactly at index 0.
   */
  function ToFeedQuestion(q: ApiQuestion, index: nat): (f: Feed.Question)
    ensures f.id == IntToDecimal(q.id) && ParseDecimal(f.id) == Some(q.id)
    ensures f.content == q.content && f.isResolved == q.isResolved
    ensures f.timestampMs - q.createdAtMs == KstShiftMs
    ensures f.isNew <==> index == 0
  {
    IntToDecimalRoundTrip(q.id);
    Feed.Question(IntToDecimal(q.id), q.content, q.createdAtMs + KstShiftMs, q.isResolved, index == 0)
  }

  /** `data ?? []`: the fetched list, empty while there is none. */
  function Fetched(data: Option<seq<ApiQuestion>>): (xs: seq<ApiQuestion>)
    ensures data.None? ==> xs == []
    ensures data.Some? ==> xs == data.value
  {
    if data.Some? then data.value else []
  }

  /** The `questions` memo: `(data ?? []).map(...)`. */
  function Project(data: Option<seq<ApiQuestion>>): (questions: seq<Feed.Question>)
    ensures |questions| == |Fetched(data)|
    ensures data.None? ==> questions == []
  {
    var xs := Fetched(data);
    seq(|xs|, i requires 0 <= i < |xs| => ToFeedQuestion(xs[i], i))
  }

  /**
   * Each projected question keeps its record's position, reads back to the
   * record's numeric id, copies content and resolved flag, is shifted by
   * exactly nine hours, and is new exactly at index 0.
   */
  lemma ProjectedAt(data: Option<seq<ApiQuestion>>, i: nat)
    requires i < |Fetched(data)|
    ensures var q, x := Project(data)[i], Fetched(data)[i];
      && q.id == IntToDecimal(x.id)
      && ParseDecimal(q.id) == Some(x.id)
      && q.content == x.content
      && q.isResolved == x.isResolved
      && q.timestampMs == x.createdAtMs + 9 * 60 * 60 * 1000
      && (q.isNew <==> i == 0)
  {
  }

  /** Distinct server ids give distinct React keys. */
  lemma ProjectedIdsDistinct(data: Option<seq<ApiQuestion>>)
    requires forall i, j :: 0 <= i < j < |Fetched(data)| ==> Fetched(data)[i].id != Fetched(data)[j].id
    ensures var qs := Project(data);
      forall i, j :: 0 <= i < j < |qs| ==> qs[i].id != qs[j].id
  {
    var xs, qs := Fetched(data), Project(data);
    forall i, j | 0 <= i < j < |qs| ensures qs[i].id != qs[j].id {
      IntToDecimalInjective(xs[i].id, xs[j].id);
    }
  }

  /** The body of `PATCH /questions/{id}`, with its path. */
  datatype PatchRequest = PatchRequest(path: string, isResolved: bool)

  /** `handleToggleResolved`: asks for the negation of the value the card shows. */
  function ToggleRequest(id: string, currentValue: bool): (req: PatchRequest)
    ensures req.isResolved == !currentValue
    ensures req.path == "/questions/" + id
  {
    PatchRequest("/questions/" + id, !currentValue)
  }

  /** Toggling from the value the first toggle asked for asks for the original value again. */
  lemma ToggleTwice(id: string, currentValue: bool)
    ensures ToggleRequest(id, ToggleRequest(id, currentValue).isResolved).isResolved == currentValue
    ensures ToggleRequest(id, currentValue).isResolved != ToggleRequest(id, !currentValue).isResolved
  {
  }

  /** `url.hash = ""`: drops the first `#` and everything after it. */
  function StripFragment(href: string): (r: string)
    ensures '#' !in r
    ensures |r| <= |href| && r == href[..|r|]
    ensures |r| < |href| ==> href[|r|] == '#'
  {
    if href == [] then []
    else if href[0] == '#' then []
    else [href[0]] + StripFragment(href[1..])
  }

  const DevSessionUrl: string := "http://localhost:5173"

  /** `sessionUrl`: the page's own URL, `window.location.href`, without its fragment. */
  function SessionUrl(href: Option<string>): (url: string)
    ensures '#' !in url
    ensures href.None? ==> url == DevSessionUrl
    ensures href.Some? && '#' !in href.value ==> url == href.value
    ensures href.Some? ==> |url| <= |href.value| && url == href.value[..|url|]
    ensures href.Some? && |url| < |href.value| ==> href.value[|url|] == '#'
  {
    if href.None? then DevSessionUrl else StripFragment(href.value)
  }

  /** A request the page sends to the backend. */
  datatype GatewayCall = PostQuestion(content: string) | PatchQuestion(request: PatchRequest)

  /** One settled mutation: its request and whether it succeeded. */
  datatype Attempt = Attempt(call: GatewayCall, succeeded: bool)

  /** How many of the attempts succeeded: none exactly when every attempt failed, all exactly when none did. */
  function SuccessCount(attempts: seq<Attempt>): (n: nat)
    ensures n <= |attempts|
    ensures n == 0 <==> forall i :: 0 <= i < |attempts| ==> !attempts[i].succeeded
    ensures n == |attempts| <==> forall i :: 0 <= i < |attempts| ==> attempts[i].succeeded
  {
    if attempts == [] then 0
    else SuccessCount(attempts[..|attempts| - 1]) + (if attempts[|attempts| - 1].succeeded then 1 else 0)
  }

  /**
   * The two mutations and the query client they share. `invalidations` logs
   * the keys passed to `invalidateQueries`; the cache itself is not modelled.
   */
  class MutationCoordinator {
    var attempts: seq<Attempt>
    var invalidations: seq<seq<string>>

    /** Every invalidation is of `["questions"]`, and there is one per successful mutation. */
    ghost predicate Valid()
      reads this
    {
      && |invalidations| == SuccessCount(attempts)
      && forall i :: 0 <= i < |invalidations| ==> invalidations[i] == QuestionsQueryKey
    }

    constructor ()
      ensures Valid() && attempts == [] && invalidations == []
    {
      attempts, invalidations := [], [];
    }

    /** Records a settled attempt and, on success only, the `onSuccess` invalidation. */
    method Settle(call: GatewayCall, succeeded: bool)
      requires Valid()
      modifies this
      ensures Valid()
      ensures attempts == old(attempts) + [Attempt(call, succeeded)]
      ensures invalidations == old(invalidations) + (if succeeded then [QuestionsQueryKey] else [])
    {
      var before := attempts;
      attempts := attempts + [Attempt(call, succeeded)];
      assert attempts[..|attempts| - 1] == before;
      if succeeded {
        invalidations := invalidations + [QuestionsQueryKey];
      }
    }

    /** `createQuestionMutation.mutateAsync(content)`; `ok` is whether the awaited call resolves. */
    method CreateQuestion(content: string, succeeded: bool) returns (ok: bool)
      requires Valid()
      modifies this
      ensures Valid() && ok == succeeded
      ensures attempts == old(attempts) + [Attempt(PostQuestion(content), succeeded)]
      ensures invalidations == old(invalidations) + (if succeeded then [QuestionsQueryKey] else [])
    {
      Settle(PostQuestion(content), succeeded);
      ok := succeeded;
    }

    /** `handleToggleResolved(id, currentValue)` through `updateQuestionStatusMutation`. */
    method ToggleResolved(id: string, currentValue: bool, succeeded: bool) returns (ok: bool)
      requires Valid()
      modifies this
      ensures Valid() && ok == succeeded
      ensures attempts == old(attempts) + [Attempt(PatchQuestion(ToggleRequest(id, currentValue)), succeeded)]
      ensures invalidations == old(invalidations) + (if succeeded then [QuestionsQueryKey] else [])
    {
      Settle(PatchQuestion(ToggleRequest(id, currentValue)), succeeded);
      ok := succeeded;
    }
  }

  /**
   * The form's `onSubmit` is `handleSubmitQuestion`: a blank field never
   * reaches the backend, and anything else is posted trimmed.
   */
  method SubmitFromForm(form: QuestionForm, coordinator: MutationCoordinator, succeeded: bool)
    returns (outcome: SubmitOutcome)
    requires coordinator.Valid()
    modifies form, coordinator
    ensures coordinator.Valid()
    ensures form.question == (if Trim(old(form.question)) != "" && succeeded then "" else old(form.question))
    ensures Trim(old(form.question)) == "" ==>
      && outcome == EmptyInputError
      && coordinator.attempts == old(coordinator.attempts)
      && coordinator.invalidations == old(coordinator.invalidations)
    ensures Trim(old(form.question)) != "" ==>
      && outcome == (if succeeded then Submitted else SubmitFailed)
      && coordinator.attempts == old(coordinator.attempts) + [Attempt(PostQuestion(Trim(old(form.question))), succeeded)]
      && coordinator.invalidations == old(coordinator.invalidations) + (if succeeded then [QuestionsQueryKey] else [])
  {
    var sent;
    outcome, sent := form.HandleSubmit(succeeded);
    if sent.Some? {
      var _ := coordinator.CreateQuestion(sent.value, succeeded);
    }
  }
}
