/**
 * The `questions` table row (backend/models.py). Times are whole seconds
 * since the Unix epoch, read as UTC, as the backend stores naive UTC values.
 */
module QuestionModel {

  /**
   * One row. `content` is a non-nullable string column, which a Dafny
   * `string` always is; `id` is the integer primary key.
   */
  datatype Question = Question(id: int, content: string, isResolved: bool, createdAt: int)

  /**
   * A row as the ORM builds it from `Question(content=...)`: the column
   * defaults fill in `is_resolved = False` and `created_at = utcnow()`,
   * the latter given here as `now`; the key is assigned by the database.
   */
  function NewQuestion(id: int, content: string, now: int): (q: Question)
    ensures q.id == id && q.content == content
    ensures !q.isResolved && q.createdAt == now
  {
    Question(id, content, false, now)
  }

  /** The primary-key constraint: no two rows share an id. */
  predicate UniqueIds(rows: seq<Question>) {
    forall i, j :: 0 <= i < j < |rows| ==> rows[i].id != rows[j].id
  }

  predicate HoldsId(rows: seq<Question>, id: int) {
    exists i :: 0 <= i < |rows| && rows[i].id == id
  }
}
