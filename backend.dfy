/**
 * The FastAPI backend (backend/main.py) over an in-memory `questions` table.
 * Times are whole UTC epoch seconds; "now" is a parameter of every operation
 * that reads the clock.
 */
module Backend {
  import opened Wrappers
  import opened QuestionModel

  /** Korea Standard Time is UTC+9, without daylight saving. */
  const KstOffset: int := 9 * 60 * 60
  const SecondsPerDay: int := 24 * 60 * 60

  /**
   * The UTC instant of the most recent midnight in KST: `now` converted to
   * KST, truncated to its calendar date, and converted back to UTC.
   */
  function KstMidnightUtc(now: int): (cutoff: int)
    ensures cutoff <= now < cutoff + SecondsPerDay
    ensures (cutoff + KstOffset) % SecondsPerDay == 0
  {
    (now + KstOffset) / SecondsPerDay * SecondsPerDay - KstOffset
  }

  /** The two properties above pin the cutoff down: it is the only KST midnight in the last day. */
  lemma CutoffUnique(now: int, c: int)
    requires c <= now < c + SecondsPerDay
    requires (c + KstOffset) % SecondsPerDay == 0
    ensures c == KstMidnightUtc(now)
  {
    var m := (c + KstOffset) / SecondsPerDay;
    assert c + KstOffset == m * SecondsPerDay;
    assert m * SecondsPerDay <= now + KstOffset < (m + 1) * SecondsPerDay;
    assert (now + KstOffset) / SecondsPerDay == m;
  }

  /** The rows a prune at `cutoff` leaves: those created at or after it, in table order. */
  function Pruned(rows: seq<Question>, cutoff: int): (kept: seq<Question>)
    ensures |kept| <= |rows|
    ensures forall q :: q in kept <==> q in rows && q.createdAt >= cutoff
  {
    if rows == [] then []
    else if rows[0].createdAt < cutoff then Pruned(rows[1..], cutoff)
    else [rows[0]] + Pruned(rows[1..], cutoff)
  }

  /** Pruning works row by row, so it keeps the relative order of the rows it keeps. */
  lemma {:induction false} PrunedDistributes(a: seq<Question>, b: seq<Question>, cutoff: int)
    ensures Pruned(a + b, cutoff) == Pruned(a, cutoff) + Pruned(b, cutoff)
  {
    if a != [] {
      assert (a + b)[1..] == a[1..] + b;
      PrunedDistributes(a[1..], b, cutoff);
    } else {
      assert a + b == b;
    }
  }

  /** A table holding only rows from today is left exactly as it is. */
  lemma {:induction false} PrunedKeepsRecent(rows: seq<Question>, cutoff: int)
    requires forall i :: 0 <= i < |rows| ==> rows[i].createdAt >= cutoff
    ensures Pruned(rows, cutoff) == rows
  {
    if rows != [] {
      PrunedKeepsRecent(rows[1..], cutoff);
    }
  }

  /** Pruning at a later cutoff after an earlier one is pruning once at the later one. */
  lemma {:induction false} PrunedTwice(rows: seq<Question>, c1: int, c2: int)
    requires c1 <= c2
    ensures Pruned(Pruned(rows, c1), c2) == Pruned(rows, c2)
  {
    if rows != [] {
      PrunedTwice(rows[1..], c1, c2);
    }
  }

  /** Pruning twice at the same instant equals pruning once. */
  lemma PruneIdempotent(rows: seq<Question>, now: int)
    ensures Pruned(Pruned(rows, KstMidnightUtc(now)), KstMidnightUtc(now)) == Pruned(rows, KstMidnightUtc(now))
  {
    PrunedTwice(rows, KstMidnightUtc(now), KstMidnightUtc(now));
  }

  /** Deleting rows cannot break the primary-key constraint. */
  lemma {:induction false} PrunedUniqueIds(rows: seq<Question>, cutoff: int)
    requires UniqueIds(rows)
    ensures UniqueIds(Pruned(rows, cutoff))
  {
    if rows != [] {
      PrunedUniqueIds(rows[1..], cutoff);
      var rest := Pruned(rows[1..], cutoff);
      if rows[0].createdAt >= cutoff {
        forall j | 0 <= j < |rest| ensures rest[j].id != rows[0].id {
          assert rest[j] in rows[1..];
        }
      }
    }
  }

  /** The largest id in the table, or 0 for an empty table. */
  function MaxId(rows: seq<Question>): (m: int)
    ensures m >= 0
    ensures forall i :: 0 <= i < |rows| ==> rows[i].id <= m
    ensures m == 0 || HoldsId(rows, m)
  {
    if rows == [] then 0
    else
      var rest := MaxId(rows[1..]);
      if rows[0].id > rest then rows[0].id else rest
  }

  /**
   * The key SQLite gives a new row of a table whose integer primary key is not
   * AUTOINCREMENT: one more than the largest key present, and 1 when empty.
   */
  function NextRowId(rows: seq<Question>): (id: int)
    ensures id >= 1 && !HoldsId(rows, id)
  {
    MaxId(rows) + 1
  }

  /** `created_at` descending: the `order_by(created_at.desc())` of `get_questions`. */
  predicate NewestFirst(rows: seq<Question>) {
    forall i, j :: 0 <= i < j < |rows| ==> rows[i].createdAt >= rows[j].createdAt
  }

  lemma ConsNewestFirst(x: Question, rows: seq<Question>)
    requires NewestFirst(rows)
    requires rows == [] || x.createdAt >= rows[0].createdAt
    ensures NewestFirst([x] + rows)
  {
    forall i, j | 0 <= i < j < |rows| + 1 ensures ([x] + rows)[i].createdAt >= ([x] + rows)[j].createdAt {
      if i == 0 {
        assert ([x] + rows)[j] == rows[j - 1];
        assert rows[0].createdAt >= rows[j - 1].createdAt;
      }
    }
  }

  function InsertByAge(q: Question, sorted: seq<Question>): (r: seq<Question>)
    requires NewestFirst(sorted)
    ensures NewestFirst(r)
    ensures multiset(r) == multiset(sorted) + multiset{q}
    ensures |r| == |sorted| + 1 && (r[0] == q || (sorted != [] && r[0] == sorted[0]))
    decreases |sorted|
  {
    if sorted == [] || q.createdAt > sorted[0].createdAt then
      ConsNewestFirst(q, sorted);
      [q] + sorted
    else
      var head, rest := sorted[0], sorted[1..];
      assert sorted == [head] + rest;
      assert NewestFirst(rest);
      var tail := InsertByAge(q, rest);
      ConsNewestFirst(head, tail);
      [head] + tail
  }

  /** Every row of an insertion result is the inserted row or was already there. */
  lemma InsertMembers(q: Question, sorted: seq<Question>, k: nat)
    requires NewestFirst(sorted)
    requires k < |InsertByAge(q, sorted)|
    ensures var x := InsertByAge(q, sorted)[k]; x == q || x in sorted
  {
    var r := InsertByAge(q, sorted);
    assert r[k] in multiset(r);
  }

  lemma UniqueCons(x: Question, rows: seq<Question>)
    requires UniqueIds(rows)
    requires forall k :: 0 <= k < |rows| ==> rows[k].id != x.id
    ensures UniqueIds([x] + rows)
  {
    forall i, j | 0 <= i < j < |rows| + 1 ensures ([x] + rows)[i].id != ([x] + rows)[j].id {
      assert ([x] + rows)[j] == rows[j - 1];
      if i > 0 {
        assert ([x] + rows)[i] == rows[i - 1];
      }
    }
  }

  /**
   * The rows newest first. SQL leaves the order of equal timestamps open;
   * this sort puts the later table row first among them, which is one of the
   * orders allowed and the one the database's finer clock gives.
   */
  function SortNewestFirst(rows: seq<Question>): (sorted: seq<Question>)
    ensures NewestFirst(sorted)
    ensures multiset(sorted) == multiset(rows)
  {
    if rows == [] then []
    else
      assert rows == [rows[0]] + rows[1..];
      InsertByAge(rows[0], SortNewestFirst(rows[1..]))
  }

  /** Of two rows stamped in the same second, the one stored later is listed first. */
  lemma SortTiesLaterRowFirst(a: Question, b: Question)
    requires a.createdAt == b.createdAt
    ensures SortNewestFirst([a, b]) == [b, a]
  {
    assert [a, b][1..] == [b];
    assert [b][1..] == [];
  }

  lemma {:induction false} InsertKeepsUniqueIds(q: Question, sorted: seq<Question>)
    requires NewestFirst(sorted) && UniqueIds(sorted)
    requires forall k :: 0 <= k < |sorted| ==> sorted[k].id != q.id
    ensures UniqueIds(InsertByAge(q, sorted))
    decreases |sorted|
  {
    if sorted == [] || q.createdAt > sorted[0].createdAt {
      UniqueCons(q, sorted);
    } else {
      var head, rest := sorted[0], sorted[1..];
      assert sorted == [head] + rest;
      var tail := InsertByAge(q, rest);
      InsertKeepsUniqueIds(q, rest);
      forall k | 0 <= k < |tail| ensures tail[k].id != head.id {
        InsertMembers(q, rest, k);
        if tail[k] != q {
          var m :| 0 <= m < |rest| && rest[m] == tail[k];
          assert sorted[m + 1] == tail[k];
        }
      }
      UniqueCons(head, tail);
    }
  }

  /** Sorting reorders rows without duplicating any, so keys stay unique. */
  lemma {:induction false} SortKeepsUniqueIds(rows: seq<Question>)
    requires UniqueIds(rows)
    ensures UniqueIds(SortNewestFirst(rows))
  {
    if rows != [] {
      var rest := SortNewestFirst(rows[1..]);
      SortKeepsUniqueIds(rows[1..]);
      forall k | 0 <= k < |rest| ensures rest[k].id != rows[0].id {
        assert rest[k] in multiset(rows[1..]);
        var m :| 0 <= m < |rows[1..]| && rows[1..][m] == rest[k];
        assert rows[m + 1] == rest[k];
      }
      InsertKeepsUniqueIds(rows[0], rest);
    }
  }

  /** An element of the `GET /questions` response: `is_resolved` is not among its fields. */
  datatype ListedQuestion = ListedQuestion(id: int, content: string, createdAt: int)

  /** The comprehension's one entry for a row: its key, content and timestamp, and nothing else. */
  function ListedOf(q: Question): (e: ListedQuestion)
    ensures e.id == q.id && e.content == q.content && e.createdAt == q.createdAt
  {
    ListedQuestion(q.id, q.content, q.createdAt)
  }

  /** The response built from rows in the given order, one entry per row. */
  function Listing(rows: seq<Question>): (listed: seq<ListedQuestion>)
    ensures |listed| == |rows|
  {
    seq(|rows|, i requires 0 <= i < |rows| => ListedOf(rows[i]))
  }

  lemma ListingAt(rows: seq<Question>, i: nat)
    requires i < |rows|
    ensures Listing(rows)[i] == ListedOf(rows[i])
  {
  }

  lemma ListingCons(q: Question, rows: seq<Question>)
    ensures Listing([q] + rows) == [ListedOf(q)] + Listing(rows)
  {
    assert forall i :: 0 < i <= |rows| ==> ([q] + rows)[i] == rows[i - 1];
  }

  lemma ListingMultisetCons(q: Question, rows: seq<Question>)
    ensures multiset(Listing([q] + rows)) == multiset{ListedOf(q)} + multiset(Listing(rows))
  {
    ListingCons(q, rows);
  }

  lemma {:induction false} ListingInsert(q: Question, sorted: seq<Question>)
    requires NewestFirst(sorted)
    ensures multiset(Listing(InsertByAge(q, sorted))) == multiset(Listing(sorted)) + multiset{ListedOf(q)}
    decreases |sorted|
  {
    if sorted == [] || q.createdAt > sorted[0].createdAt {
      ListingMultisetCons(q, sorted);
    } else {
      var head, rest := sorted[0], sorted[1..];
      assert [head] + rest == sorted;
      assert NewestFirst(rest);
      ListingInsert(q, rest);
      ListingMultisetCons(head, InsertByAge(q, rest));
      ListingMultisetCons(head, rest);
    }
  }

  lemma ListingNewestFirst(rows: seq<Question>)
    requires NewestFirst(rows)
    ensures var listed := Listing(rows);
      forall i, j :: 0 <= i < j < |listed| ==> listed[i].createdAt >= listed[j].createdAt
  {
    forall i, j | 0 <= i < j < |rows| ensures Listing(rows)[i].createdAt >= Listing(rows)[j].createdAt {
      ListingAt(rows, i);
      ListingAt(rows, j);
    }
  }

  lemma {:induction false} ListingOfSorted(rows: seq<Question>)
    ensures var listed := Listing(SortNewestFirst(rows));
      && (forall i, j :: 0 <= i < j < |listed| ==> listed[i].createdAt >= listed[j].createdAt)
      && multiset(listed) == multiset(Listing(rows))
  {
    ListingNewestFirst(SortNewestFirst(rows));
    ListingPermuted(rows);
  }

  lemma {:induction false} ListingPermuted(rows: seq<Question>)
    ensures multiset(Listing(SortNewestFirst(rows))) == multiset(Listing(rows))
  {
    if rows != [] {
      var head, rest := rows[0], rows[1..];
      assert rows == [head] + rest;
      assert SortNewestFirst(rows) == InsertByAge(head, SortNewestFirst(rest));
      ListingPermuted(rest);
      ListingInsert(head, SortNewestFirst(rest));
      ListingMultisetCons(head, rest);
    }
  }

  /** The body `POST /questions` answers with: a message and the new id, not the record. */
  datatype CreateResponse = CreateResponse(message: string, id: int)

  const CreatedMessage: string := "질문이 등록되었습니다"

  datatype Verb = Get | Post | Put | Patch | Delete

  datatype Endpoint = HealthCheck | CreateQuestionRoute | ListQuestionsRoute

  /**
   * The routes `backend/main.py` declares; any other request reaches none of
   * its handlers.
   */
  function Route(verb: Verb, path: string): (e: Option<Endpoint>)
    ensures e == Some(HealthCheck) <==> verb == Get && path == "/health"
    ensures e == Some(CreateQuestionRoute) <==> verb == Post && path == "/questions"
    ensures e == Some(ListQuestionsRoute) <==> verb == Get && path == "/questions"
  {
    if verb == Get && path == "/health" then Some(HealthCheck)
    else if verb == Post && path == "/questions" then Some(CreateQuestionRoute)
    else if verb == Get && path == "/questions" then Some(ListQuestionsRoute)
    else None
  }

  /** No `PATCH` request, on any path, reaches a handler. */
  lemma NoPatchRoute(path: string)
    ensures Route(Patch, path) == None
  {
  }

  /** The `questions` table, held in memory in insertion order. */
  class QuestionTable {
    var rows: seq<Question>

    /** Keys are unique and, being SQLite row ids handed out as above, positive. */
    ghost predicate Valid()
      reads this
    {
      UniqueIds(rows) && forall i :: 0 <= i < |rows| ==> rows[i].id >= 1
    }

    /** The table as found in the database file when the process starts. */
    constructor (stored: seq<Question>)
      requires UniqueIds(stored)
      requires forall i :: 0 <= i < |stored| ==> stored[i].id >= 1
      ensures Valid() && rows == stored
    {
      rows := stored;
    }

    /** The startup hook deletes every row. */
    method Startup()
      modifies this
      ensures Valid() && rows == []
    {
      rows := [];
    }

    /** `prune_old_questions`: deletes every row created before today's KST midnight. */
    method PruneOldQuestions(now: int)
      requires Valid()
      modifies this
      ensures Valid()
      ensures rows == Pruned(old(rows), KstMidnightUtc(now))
      ensures forall i :: 0 <= i < |rows| ==> rows[i].createdAt >= KstMidnightUtc(now)
    {
      PrunedUniqueIds(rows, KstMidnightUtc(now));
      rows := Pruned(rows, KstMidnightUtc(now));
    }

    /**
     * `create_question`: prunes, then appends one row holding `content` exactly
     * as received, unresolved, stamped `now`, under a key no remaining row holds.
     */
    method CreateQuestion(content: string, now: int) returns (response: CreateResponse)
      requires Valid()
      modifies this
      ensures Valid()
      ensures var kept := Pruned(old(rows), KstMidnightUtc(now));
        && rows == kept + [NewQuestion(response.id, content, now)]
        && !HoldsId(kept, response.id)
      ensures response.message == CreatedMessage
    {
      PruneOldQuestions(now);
      var id := NextRowId(rows);
      rows := rows + [NewQuestion(id, content, now)];
      response := CreateResponse(CreatedMessage, id);
    }

    /** `get_questions`: prunes, then lists the remaining rows newest first without their resolved flag. */
    method GetQuestions(now: int) returns (listed: seq<ListedQuestion>)
      requires Valid()
      modifies this
      ensures Valid()
      ensures rows == Pruned(old(rows), KstMidnightUtc(now))
      ensures listed == Listing(SortNewestFirst(rows))
    {
      PruneOldQuestions(now);
      listed := Listing(SortNewestFirst(rows));
    }
  }

  /** A question created at `now` survives any later prune on the same KST day. */
  lemma CreatedRowSurvivesSameDay(kept: seq<Question>, q: Question, now: int, later: int)
    requires q.createdAt == now && now <= later
    requires KstMidnightUtc(later) == KstMidnightUtc(now)
    requires forall i :: 0 <= i < |kept| ==> kept[i].createdAt >= KstMidnightUtc(now)
    ensures Pruned(kept + [q], KstMidnightUtc(later)) == kept + [q]
  {
    PrunedKeepsRecent(kept + [q], KstMidnightUtc(later));
  }
}
