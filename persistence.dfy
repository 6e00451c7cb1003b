/**
 * The in-memory side of save and load: the rows written to the `todos(tag, content, done)`
 * and `tags(name, color)` tables, and the state rebuilt from rows read back.
 */
module Persistence {
  import opened TodoList

  /** A row of the todos table; sqlite stores the Python bool as the integer 1 or 0. */
  datatype TodoRow = TodoRow(tag: string, content: string, done: int)

  /** A row of the tags table. */
  datatype TagRow = TagRow(name: string, color: string)

  /** The two tables of one database file. */
  datatype Tables = Tables(todoRows: seq<TodoRow>, tagRows: seq<TagRow>)

  function TodoToRow(t: Todo): (row: TodoRow) {
    TodoRow(t.tag, t.content, if t.done then 1 else 0)
  }

  /** load rebuilds `done` as `column == 1`. */
  function RowToTodo(r: TodoRow): (t: Todo) {
    Todo(r.tag, r.content, r.done == 1)
  }

  /** save: one row per todo, in list order. */
  function TodoRowsOf(ts: seq<Todo>): (rows: seq<TodoRow>)
    ensures |rows| == |ts|
  {
    seq(|ts|, i requires 0 <= i < |ts| => TodoToRow(ts[i]))
  }

  /** load: one todo per row, in row order. */
  function TodosOf(rows: seq<TodoRow>): (ts: seq<Todo>)
    ensures |ts| == |rows|
  {
    seq(|rows|, i requires 0 <= i < |rows| => RowToTodo(rows[i]))
  }

  /** load: `tags[row.name] = row.color` for each row in order, so a later row wins. */
  function TagsOf(rows: seq<TagRow>): (m: map<string, string>)
  {
    if rows == [] then map[]
    else
      var last := rows[|rows| - 1];
      TagsOf(rows[..|rows| - 1])[last.name := last.color]
  }

  function Names(rows: seq<TagRow>): (names: set<string>) {
    set i | 0 <= i < |rows| :: rows[i].name
  }

  predicate DistinctNames(rows: seq<TagRow>) {
    forall i, j :: 0 <= i < j < |rows| ==> rows[i].name != rows[j].name
  }

  lemma NamesAppend(rows: seq<TagRow>, r: TagRow)
    ensures Names(rows + [r]) == Names(rows) + {r.name}
  {
    var all := rows + [r];
    assert forall i :: 0 <= i < |rows| ==> all[i] == rows[i];
    assert all[|rows|] == r;
  }

  /** rows hold each entry of m exactly once, in some order: what save writes for the tag map. */
  predicate ListsExactly(rows: seq<TagRow>, m: map<string, string>) {
    && DistinctNames(rows)
    && Names(rows) == m.Keys
    && forall i :: 0 <= i < |rows| ==> rows[i].name in m && m[rows[i].name] == rows[i].color
  }

  /** Reading back the todo rows gives the same list: order, texts and flags. */
  lemma TodoRowsRoundTrip(ts: seq<Todo>)
    ensures TodosOf(TodoRowsOf(ts)) == ts
  {
  }

  /** Reading back a listing of every tag exactly once gives the same map, whatever the row order. */
  lemma {:induction false} TagRowsRoundTrip(rows: seq<TagRow>, m: map<string, string>)
    requires ListsExactly(rows, m)
    ensures TagsOf(rows) == m
    decreases |rows|
  {
    if rows == [] {
      assert m.Keys == {};
    } else {
      var init, last := rows[..|rows| - 1], rows[|rows| - 1];
      var m' := m - {last.name};
      assert Names(rows) == Names(init) + {last.name} by {
        assert forall i :: 0 <= i < |init| ==> init[i] == rows[i];
      }
      assert last.name !in Names(init);
      assert ListsExactly(init, m') by {
        assert forall i :: 0 <= i < |init| ==> init[i] == rows[i];
      }
      TagRowsRoundTrip(init, m');
      assert m'[last.name := last.color] == m;
    }
  }

  /** The state load rebuilds from the tables that save wrote is the state save started from. */
  lemma SaveLoadRoundTrip(ts: seq<Todo>, m: map<string, string>, t: Tables)
    requires t.todoRows == TodoRowsOf(ts) && ListsExactly(t.tagRows, m)
    ensures TodosOf(t.todoRows) == ts && TagsOf(t.tagRows) == m
  {
    TodoRowsRoundTrip(ts);
    TagRowsRoundTrip(t.tagRows, m);
  }
}
