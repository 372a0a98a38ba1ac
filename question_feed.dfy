/**
 * The question feed (QR_Code_Question/src/components/QuestionFeed.tsx): a
 * stateless choice of what to show for the query status and the list.
 */
module QuestionFeed {
  import opened Wrappers

  /** A question as the feed receives it; times are epoch milliseconds. */
  datatype Question = Question(id: string, content: string, timestampMs: int, isResolved: bool, isNew: bool)

  /** The three card styles the class-name ternary chooses between. */
  datatype CardStyle = ResolvedStyle | HighlightedStyle | PlainStyle

  datatype ButtonLabel = UndoLabel | ResolveLabel

  /** What a card's button passes to `onToggleResolved`. */
  datatype ToggleArgs = ToggleArgs(id: string, currentValue: bool)

  datatype Card = Card(
    key: string,
    content: string,
    timestampMs: int,
    style: CardStyle,
    struckThrough: bool,
    buttonLabel: ButtonLabel,
    buttonDisabled: bool,
    onClick: ToggleArgs)

  /** Inside the scroll area: the empty-state message or the cards. */
  datatype ListBody = EmptyMessage | Cards(cards: seq<Card>)

  /** The feed's conditional parts, each present or absent. */
  datatype FeedView = FeedView(
    loadingPanel: bool,
    errorPanel: bool,
    list: Option<ListBody>,
    countFooter: Option<nat>)

  /** Resolved wins over newness and position; otherwise new or first is highlighted. */
  function StyleOf(q: Question, index: nat): (style: CardStyle)
    ensures style == ResolvedStyle <==> q.isResolved
    ensures style == HighlightedStyle <==> !q.isResolved && (q.isNew || index == 0)
    ensures style == PlainStyle <==> !q.isResolved && !q.isNew && index != 0
  {
    if q.isResolved then ResolvedStyle
    else if q.isNew || index == 0 then HighlightedStyle
    else PlainStyle
  }

  /**
   * One card: keyed and labelled by the question, struck through and offering
   * "undo" exactly when resolved, disabled while an update is pending, and
   * handing the question's own id and flag to the toggle.
   */
  function CardFor(q: Question, index: nat, isUpdating: bool): (c: Card)
    ensures c.key == q.id && c.content == q.content && c.timestampMs == q.timestampMs
    ensures c.style == StyleOf(q, index)
    ensures c.struckThrough <==> q.isResolved
    ensures c.buttonLabel == UndoLabel <==> q.isResolved
    ensures c.buttonDisabled == isUpdating
    ensures c.onClick == ToggleArgs(q.id, q.isResolved)
  {
    Card(
      q.id,
      q.content,
      q.timestampMs,
      StyleOf(q, index),
      q.isResolved,
      if q.isResolved then UndoLabel else ResolveLabel,
      isUpdating,
      ToggleArgs(q.id, q.isResolved))
  }

  /** `questions.map((question, index) => ...)`: one card per question, in order. */
  function CardsFor(questions: seq<Question>, isUpdating: bool): (cards: seq<Card>)
    ensures |cards| == |questions|
    ensures forall i :: 0 <= i < |questions| ==> cards[i] == CardFor(questions[i], i, isUpdating)
  {
    seq(|questions|, i requires 0 <= i < |questions| => CardFor(questions[i], i, isUpdating))
  }

  /** The feed for the query's `isLoading` and `isError` flags and the projected list. */
  function Render(questions: seq<Question>, isLoading: bool, isError: bool, isUpdating: bool): (v: FeedView)
    ensures v.loadingPanel <==> isLoading
    ensures v.errorPanel <==> isError && !isLoading
    ensures v.list.Some? <==> !isLoading && !isError
    ensures v.list.Some? && |questions| > 0 ==> v.list.value == Cards(CardsFor(questions, isUpdating))
    ensures v.list.Some? && |questions| == 0 ==> v.list.value == EmptyMessage
    ensures v.countFooter.Some? <==> v.list.Some? && |questions| > 0
    ensures v.countFooter.Some? ==> v.countFooter.value == |questions|
  {
    FeedView(
      isLoading,
      isError && !isLoading,
      if !isLoading && !isError then
        Some(if |questions| == 0 then EmptyMessage else Cards(CardsFor(questions, isUpdating)))
      else None,
      if !isLoading && !isError && |questions| > 0 then Some(|questions|) else None)
  }

  /** Exactly one of loading, error and list shows, and loading hides everything else. */
  lemma ExactlyOnePanel(questions: seq<Question>, isLoading: bool, isError: bool, isUpdating: bool)
    ensures var v := Render(questions, isLoading, isError, isUpdating);
      && (v.loadingPanel ==> !v.errorPanel && v.list.None? && v.countFooter.None?)
      && (if v.loadingPanel then 1 else 0) + (if v.errorPanel then 1 else 0) + (if v.list.Some? then 1 else 0) == 1
  {
  }

  /**
   * A shown non-empty list has one card per question, in order, each built
   * from that question's own values; every button is disabled iff `isUpdating`.
   */
  lemma CardsMatchQuestions(questions: seq<Question>, isUpdating: bool, i: nat)
    requires |questions| > 0 && i < |questions|
    ensures var v := Render(questions, false, false, isUpdating);
      && v.list.Some? && v.list.value.Cards?
      && |v.list.value.cards| == |questions|
      && var c := v.list.value.cards[i];
      && c.key == questions[i].id && c.content == questions[i].content
      && c.timestampMs == questions[i].timestampMs
      && c.onClick == ToggleArgs(questions[i].id, questions[i].isResolved)
      && c.buttonDisabled == isUpdating
      && (c.struckThrough <==> questions[i].isResolved)
      && (c.buttonLabel == UndoLabel <==> questions[i].isResolved)
      && c.style == StyleOf(questions[i], i)
  {
  }

  /** Korea keeps UTC+9 all year, so `Asia/Seoul` shows an instant 9 hours on. */
  const SeoulOffsetMs: int := 9 * 60 * 60 * 1000

  /** The Seoul wall-clock reading, as a UTC-epoch value, that `formatTime` prints for an instant. */
  function WallClockMs(instantMs: int): (wall: int)
    ensures wall - instantMs == SeoulOffsetMs
  {
    instantMs + SeoulOffsetMs
  }
}
