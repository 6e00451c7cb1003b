/**
 * The program's state object and its commands: the todo list, the tag-to-color map and
 * the unsaved-changes flag, updated in place by each operation, and one turn of the
 * dispatch loop. Console output, the prompt library and sqlite are outside the model:
 * the user's answers come in as a sequence of strings, random.choice as an index into
 * the palette, and the database files as a map from file name to its tables.
 */
module App {
  import opened Wrappers
  import opened TodoList
  import opened Prompts
  import opened Persistence
  import opened Commands

  /** How an operation ended: normally, with an error it caught and printed, with the
      "not 'done' or 'all'" message of clear, or with an exception it let escape. */
  datatype Status = Completed | Caught(error: PyError) | Refused | Raised(error: PyError)

  /** How one turn of the dispatch loop ended. An escaping exception ends the program. */
  datatype Outcome = Continue | Exit | Crash(error: PyError)

  /** The database files that exist and are non-empty, with their tables. */
  type Store = map<string, Tables>

  function CaughtStatus(e: Option<PyError>): (status: Status) {
    match e
    case None => Completed
    case Some(x) => Caught(x)
  }

  /** save's guard: an existing non-empty file is overwritten only after a yes. */
  function OverwriteConfirmation(occupied: bool, answers: seq<string>): (r: Reply<bool>) {
    if occupied then YesNoChoice(answers) else Answered(true, answers)
  }

  /** The questions add_todo asks about a tag it does not know: create it, and with which color. */
  function TagOffer(answers: seq<string>, pick: nat): (r: Reply<Option<string>>)
    requires pick < |Colors|
    ensures r.Answered? && r.value.Some? ==> r.value.value in Colors
    ensures r.Answered? && r.value.None? <==> YesNoChoice(answers).Answered? && !YesNoChoice(answers).value
  {
    match YesNoChoice(answers)
    case EndOfInput => EndOfInput
    case Answered(yes, rest) =>
      if !yes then Answered(None, rest)
      else
        match AskForColor(rest, pick)
        case EndOfInput => EndOfInput
        case Answered(color, rest') => Answered(Some(color), rest')
  }

  class Main {
    var todos: seq<Todo>
    var tags: map<string, string>
    var hasChanged: bool

    constructor ()
      ensures todos == [] && tags == map[] && !hasChanged
    {
      todos := [];
      tags := map[];
      hasChanged := false;
    }

    /** add_tag: sets (or overwrites) the color of one tag. */
    method AddTag(name: string, color: string)
      modifies this
      ensures tags == old(tags)[name := color]
      ensures todos == old(todos) && hasChanged
    {
      tags := tags[name := color];
      hasChanged := true;
    }

    /**
     * add_todo: reads the tag and the content, offers to create an unknown tag,
     * and appends the new, not-done todo.
     */
    method AddTodo(answers: seq<string>, pick: nat) returns (status: Status, rest: seq<string>)
      requires pick < |Colors|
      modifies this
      ensures status == Completed || status == Raised(EOFError)
      ensures status.Raised? ==> todos == old(todos) && tags == old(tags) && hasChanged == old(hasChanged)
      ensures |answers| < 2 ==> status.Raised?
      ensures status == Completed ==>
                && |answers| >= 2
                && todos == old(todos) + [Todo(answers[0], answers[1], false)]
                && hasChanged
      ensures |answers| >= 2 && answers[0] in old(tags) ==>
                status == Completed && tags == old(tags) && rest == answers[2..]
      ensures |answers| >= 2 && answers[0] !in old(tags) ==>
                var offer := TagOffer(answers[2..], pick);
                && (status.Raised? <==> offer.EndOfInput?)
                && (offer.Answered? ==> rest == offer.rest)
                && (offer.Answered? && offer.value.None? ==> tags == old(tags))
                && (offer.Answered? && offer.value.Some? ==> tags == old(tags)[answers[0] := offer.value.value])
    {
      if |answers| < 2 {
        return Raised(EOFError), [];
      }
      var tag, content := answers[0], answers[1];
      rest := answers[2..];
      if tag !in tags {
        var create := YesNoChoice(rest);
        if create.EndOfInput? {
          return Raised(EOFError), [];
        }
        rest := create.rest;
        if create.value {
          var color := AskForColor(rest, pick);
          if color.EndOfInput? {
            return Raised(EOFError), [];
          }
          rest := color.rest;
          AddTag(tag, color.value);
        }
      }
      todos := todos + [Todo(tag, content, false)];
      hasChanged := true;
      status := Completed;
    }

    /** mark_as_done: flips one item's flag, or every item's for "all"; errors are caught. */
    method MarkAsDone(idx: string) returns (status: Status)
      modifies this
      ensures todos == Marked(old(todos), idx).list
      ensures status == CaughtStatus(Marked(old(todos), idx).error)
      ensures tags == old(tags) && hasChanged == old(hasChanged)
    {
      if idx == "all" {
        for i := 0 to |todos|
          invariant |todos| == |old(todos)|
          invariant forall j :: 0 <= j < i ==> todos[j] == Toggled(old(todos)[j])
          invariant forall j :: i <= j < |todos| ==> todos[j] == old(todos)[j]
          invariant tags == old(tags) && hasChanged == old(hasChanged)
        {
          todos := todos[i := Toggled(todos[i])];
        }
        status := Completed;
      } else {
        var i := PyInt.ParseInt(idx);
        if i.None? {
          return Caught(ValueError);
        }
        var k := ResolveIndex(i.value, |todos|);
        if k.None? {
          return Caught(IndexError);
        }
        todos := todos[k.value := Toggled(todos[k.value])];
        status := Completed;
      }
    }

    /** delete: `del todos[idx]`; errors are caught and leave the list as it was. */
    method Delete(idx: Subscript) returns (status: Status)
      modifies this
      ensures todos == Deleted(old(todos), idx).list
      ensures status == CaughtStatus(Deleted(old(todos), idx).error)
      ensures tags == old(tags) && hasChanged == old(hasChanged)
    {
      match idx
      case StrSubscript(_) =>
        status := Caught(TypeError);
      case IntSubscript(i) =>
        var k := ResolveIndex(i, |todos|);
        if k.None? {
          status := Caught(IndexError);
        } else {
          todos := RemoveAt(todos, k.value);
          status := Completed;
        }
    }

    /** clear: "done" pops done items by index over the original length, "all" empties the list. */
    method Clear(kind: string) returns (status: Status)
      modifies this
      ensures kind == "done" ==>
                && todos == ClearedDone(old(todos)).list
                && (status == Completed <==> ClearedDone(old(todos)).error.None?)
                && (status != Completed ==> status == Raised(IndexError))
      ensures kind == "all" ==> todos == [] && status == Completed
      ensures kind != "done" && kind != "all" ==> todos == old(todos) && status == Refused
      ensures tags == old(tags) && hasChanged == old(hasChanged)
    {
      if kind == "done" {
        var stop := |todos| - 1;
        var idx: nat := 0;
        while idx < stop
          invariant ClearDoneFrom(todos, idx, stop) == ClearedDone(old(todos))
          invariant tags == old(tags) && hasChanged == old(hasChanged)
          decreases stop - idx
        {
          if idx >= |todos| {
            ClearDoneErrorIsIndex(old(todos), 0, |old(todos)| - 1);
            return Raised(IndexError);
          }
          if todos[idx].done {
            todos := RemoveAt(todos, idx);
          }
          idx := idx + 1;
        }
        status := Completed;
      } else if kind == "all" {
        todos := [];
        status := Completed;
      } else {
        status := Refused;
      }
    }

    /** change_tag_color: asks for a color and sets it for the tag, creating the tag if needed. */
    method ChangeTagColor(tag: string, answers: seq<string>, pick: nat) returns (status: Status, rest: seq<string>)
      requires pick < |Colors|
      modifies this
      ensures AskForColor(answers, pick).EndOfInput? ==>
                status == Raised(EOFError) && tags == old(tags)
      ensures AskForColor(answers, pick).Answered? ==>
                && status == Completed
                && tags == old(tags)[tag := AskForColor(answers, pick).value]
                && rest == AskForColor(answers, pick).rest
      ensures todos == old(todos) && hasChanged == old(hasChanged)
    {
      var color := AskForColor(answers, pick);
      if color.EndOfInput? {
        return Raised(EOFError), [];
      }
      tags := tags[tag := color.value];
      status, rest := Completed, color.rest;
    }

    /** The rows save inserts: one per todo in list order, one per tag. */
    method TableRows() returns (t: Tables)
      ensures t.todoRows == TodoRowsOf(todos)
      ensures ListsExactly(t.tagRows, tags)
    {
      var todoRows: seq<TodoRow> := [];
      for i := 0 to |todos|
        invariant |todoRows| == i
        invariant forall j :: 0 <= j < i ==> todoRows[j] == TodoToRow(todos[j])
      {
        todoRows := todoRows + [TodoToRow(todos[i])];
      }
      var tagRows: seq<TagRow> := [];
      var pending := tags.Keys;
      while pending != {}
        invariant pending <= tags.Keys
        invariant Names(tagRows) == tags.Keys - pending
        invariant DistinctNames(tagRows)
        invariant forall i :: 0 <= i < |tagRows| ==> tagRows[i].name in tags && tags[tagRows[i].name] == tagRows[i].color
        decreases pending
      {
        var name :| name in pending;
        assert forall i :: 0 <= i < |tagRows| ==> tagRows[i].name in Names(tagRows);
        NamesAppend(tagRows, TagRow(name, tags[name]));
        tagRows := tagRows + [TagRow(name, tags[name])];
        pending := pending - {name};
      }
      t := Tables(todoRows, tagRows);
    }

    /** close_conn_and_print: the last step of a successful save or load sets the flag. */
    method CloseConnAndPrint(changed: bool)
      modifies this
      ensures hasChanged == changed
      ensures todos == old(todos) && tags == old(tags)
    {
      hasChanged := changed;
    }

    /**
     * save: confirms before overwriting an existing non-empty file, then writes the rows
     * and clears the flag. A declined overwrite or a failed write is caught and changes nothing.
     */
    method Save(target: string, answers: seq<string>, store: Store, writeOk: bool)
      returns (status: Status, rest: seq<string>, store': Store)
      modifies this
      ensures todos == old(todos) && tags == old(tags)
      ensures var confirm := OverwriteConfirmation(target in store, answers);
              && (confirm.EndOfInput? ==> status == Raised(EOFError))
              && (confirm.Answered? ==> rest == confirm.rest)
              && (status == Completed <==> confirm.Answered? && confirm.value && writeOk)
              && (confirm.Answered? && !(confirm.value && writeOk) ==> status == Caught(DatabaseError))
      ensures status == Completed ==>
                && !hasChanged
                && target in store'
                && store' == store[target := store'[target]]
                && store'[target].todoRows == TodoRowsOf(todos)
                && ListsExactly(store'[target].tagRows, tags)
      ensures status != Completed ==> hasChanged == old(hasChanged) && store' == store
    {
      store' := store;
      var confirm := OverwriteConfirmation(target in store, answers);
      if confirm.EndOfInput? {
        return Raised(EOFError), [], store;
      }
      rest := confirm.rest;
      if !confirm.value || !writeOk {
        return Caught(DatabaseError), rest, store;
      }
      var t := TableRows();
      store' := store[target := t];
      CloseConnAndPrint(false);
      status := Completed;
    }

    /**
     * load: reads both tables of an existing database, discards the current todos and tags,
     * rebuilds them from the rows and sets the flag. A file without the tables is caught and
     * changes nothing.
     */
    method Load(target: string, store: Store) returns (status: Status)
      modifies this
      ensures target !in store ==>
                status == Caught(DatabaseError) && todos == old(todos) && tags == old(tags) && hasChanged == old(hasChanged)
      ensures target in store ==>
                && status == Completed
                && todos == TodosOf(store[target].todoRows)
                && tags == TagsOf(store[target].tagRows)
                && hasChanged
    {
      if target !in store {
        return Caught(DatabaseError);
      }
      var t := store[target];
      var cleared := Clear("all");
      tags := map[];
      assert t.tagRows[..0] == [];
      for i := 0 to |t.todoRows|
        invariant |todos| == i
        invariant forall j :: 0 <= j < i ==> todos[j] == RowToTodo(t.todoRows[j])
        invariant tags == map[]
      {
        todos := todos + [RowToTodo(t.todoRows[i])];
      }
      for i := 0 to |t.tagRows|
        invariant tags == TagsOf(t.tagRows[..i])
        invariant todos == TodosOf(t.todoRows)
      {
        assert t.tagRows[..i + 1][..i] == t.tagRows[..i];
        tags := tags[t.tagRows[i].name := t.tagRows[i].color];
      }
      assert t.tagRows[..|t.tagRows|] == t.tagRows;
      CloseConnAndPrint(true);
      status := Completed;
    }

    /**
     * One turn of the loop in `run`: tokenize the line, check the argument count, dispatch,
     * and report whether the program goes on, exits, or dies of an escaping exception.
     */
    method Step(line: string, answers: seq<string>, pick: nat, store: Store, writeOk: bool)
      returns (outcome: Outcome, notice: string, rest: seq<string>, store': Store)
      requires pick < |Colors|
      modifies this
      ensures notice == Notice(Decide(ParseLine(line)))
      ensures var d := Decide(ParseLine(line));
              d.Blank? || d.WrongArgCount? || d.Invalid? ==>
                && outcome == Continue && rest == answers && store' == store
                && todos == old(todos) && tags == old(tags) && hasChanged == old(hasChanged)
      ensures var d := Decide(ParseLine(line));
              d.AddTagCall? ==>
                && outcome == Continue && rest == answers && store' == store
                && tags == old(tags)[d.name := d.color] && todos == old(todos) && hasChanged
      ensures var d := Decide(ParseLine(line));
              d.Mapped? ==>
                && store' == store
                && (outcome == Continue ==> hasChanged)
                && (outcome.Crash? ==> outcome.error in {KeyError, TypeError, EOFError, IndexError})
                && (outcome.Crash? && outcome.error in {KeyError, TypeError} ==>
                      todos == old(todos) && tags == old(tags) && hasChanged == old(hasChanged))
                && (d.cmd == "clearscr" ==> outcome == Crash(KeyError))
                && (d.cmd == "change_tag_color" ==> outcome == Crash(TypeError))
                && (d.cmd == "help" ==> outcome == Continue && todos == old(todos) && tags == old(tags))
                && (d.cmd == "mark" ==> outcome == Continue && todos == Marked(old(todos), d.args[0]).list && tags == old(tags))
                && (d.cmd == "delete" ==> outcome == Continue && todos == old(todos) && tags == old(tags))
                && (d.cmd == "clear" && d.args[0] == "done" ==>
                      && todos == ClearedDone(old(todos)).list && tags == old(tags)
                      && (outcome == Continue <==> ClearedDone(old(todos)).error.None?)
                      && (outcome != Continue ==> outcome == Crash(IndexError)))
                && (d.cmd != "add_todo" ==> rest == answers)
                && (d.cmd == "clear" && d.args[0] == "all" ==> outcome == Continue && todos == [] && tags == old(tags))
                && (d.cmd == "clear" && d.args[0] != "done" && d.args[0] != "all" ==>
                      outcome == Continue && todos == old(todos) && tags == old(tags))
                && (d.cmd == "add_todo" && outcome == Continue ==>
                      |answers| >= 2 && todos == old(todos) + [Todo(answers[0], answers[1], false)])
                && (d.cmd == "add_todo" && outcome != Continue ==>
                      outcome == Crash(EOFError) && todos == old(todos) && tags == old(tags))
                && (d.cmd == "add_todo" && |answers| >= 2 && answers[0] in old(tags) ==>
                      outcome == Continue && tags == old(tags) && rest == answers[2..])
                && (d.cmd == "add_todo" && |answers| >= 2 && answers[0] !in old(tags) ==>
                      var offer := TagOffer(answers[2..], pick);
                      && (outcome == Crash(EOFError) <==> offer.EndOfInput?)
                      && (offer.Answered? ==> rest == offer.rest)
                      && (offer.Answered? && offer.value.None? ==> tags == old(tags))
                      && (offer.Answered? && offer.value.Some? ==> tags == old(tags)[answers[0] := offer.value.value]))
      ensures var d := Decide(ParseLine(line));
              d.ExitCall? ==>
                && outcome != Continue
                && (outcome.Crash? ==> outcome == Crash(EOFError))
                && todos == old(todos) && tags == old(tags)
                && (!old(hasChanged) ==> outcome == Exit && store' == store && rest == answers)
                && (old(hasChanged) && YesNoChoice(answers).EndOfInput? ==> outcome == Crash(EOFError))
                && (old(hasChanged) && YesNoChoice(answers).Answered? && !YesNoChoice(answers).value ==>
                      outcome == Exit && store' == store)
                && (old(hasChanged) && YesNoChoice(answers).Answered? && YesNoChoice(answers).value
                    && DbFile !in store && writeOk ==>
                      && outcome == Exit && DbFile in store'
                      && store'[DbFile].todoRows == TodoRowsOf(todos)
                      && ListsExactly(store'[DbFile].tagRows, tags))
      ensures var d := Decide(ParseLine(line));
              d.LoadCall? ==>
                && outcome == Continue && rest == answers && store' == store
                && (d.target in store ==>
                      todos == TodosOf(store[d.target].todoRows) && tags == TagsOf(store[d.target].tagRows) && hasChanged)
                && (d.target !in store ==>
                      todos == old(todos) && tags == old(tags) && hasChanged == old(hasChanged))
      ensures var d := Decide(ParseLine(line));
              d.SaveCall? ==>
                && todos == old(todos) && tags == old(tags)
                && (outcome == Continue || outcome == Crash(EOFError))
                && (d.target !in store && writeOk ==>
                      && outcome == Continue && !hasChanged && d.target in store'
                      && store'[d.target].todoRows == TodoRowsOf(todos)
                      && ListsExactly(store'[d.target].tagRows, tags))
    {
      var d := Decide(ParseLine(line));
      outcome, notice, rest, store' := Continue, Notice(d), answers, store;
      match d
      case Blank =>
      case WrongArgCount(_, _) =>
      case Invalid(_) =>
      case AddTagCall(name, color) =>
        AddTag(name, color);
      case Mapped(cmd, args) =>
        match LookupHandler(cmd, args) {
          case NoEntry =>
            outcome := Crash(KeyError);
          case ArityMismatch(_, _) =>
            outcome := Crash(TypeError);
          case Runs(handler) =>
            var status := Completed;
            match handler {
              case AddTodoHandler =>
                status, rest := AddTodo(answers, pick);
              case MarkHandler(idx) =>
                status := MarkAsDone(idx);
              case DeleteHandler(idx) =>
                status := Delete(StrSubscript(idx));
              case ClearHandler(kind) =>
                status := Clear(kind);
              case ChangeTagColorHandler(_) =>
                assert false;
              case HelpHandler =>
            }
            if status.Raised? {
              outcome := Crash(status.error);
            } else {
              hasChanged := true;
            }
        }
      case ExitCall =>
        outcome := Exit;
        if hasChanged {
          var save := YesNoChoice(answers);
          if save.EndOfInput? {
            outcome := Crash(EOFError);
          } else {
            rest := save.rest;
            if save.value {
              var status;
              status, rest, store' := Save(DbFile, rest, store, writeOk);
              if status.Raised? {
                outcome := Crash(status.error);
              }
            }
          }
        }
      case LoadCall(target) =>
        var status := Load(target, store);
      case SaveCall(target) =>
        var status;
        status, rest, store' := Save(target, answers, store, writeOk);
        if status.Raised? {
          outcome := Crash(status.error);
        }
    }
  }

  /** A save that completes, followed by a load of the same file, restores the todos and the tags. */
  method SaveThenLoad(m: Main, target: string, answers: seq<string>, store: Store) returns (saved: Status)
    modifies m
    ensures saved == Completed ==> m.todos == old(m.todos) && m.tags == old(m.tags) && m.hasChanged
  {
    var rest, store';
    saved, rest, store' := m.Save(target, answers, store, true);
    if saved == Completed {
      SaveLoadRoundTrip(m.todos, m.tags, store'[target]);
      var loaded := m.Load(target, store');
    }
  }
}
