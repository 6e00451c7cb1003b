# uluto todo model in Dafny

A model of the core of uluto, a single-user command-line todo manager. Its state object
(`Main` in `main.py`) holds an ordered list of todos (`tag`, `content`, `done`), a map from
tag name to display color, and an unsaved-changes flag. One line of user input is tokenized,
checked against a per-command argument count and dispatched through a handler table;
`save` and `load` map the state to and from two sqlite tables.

Modules, one concern each:

- `PyStr` (pystr.dfy): `str.isspace`, `str.strip`, `str.split()` and `str.lower` as the dispatcher and the yes/no question use them.
- `PyInt` (pyint.dfy): `int()` on a string in base 10, and `str()` of an int.
- `TodoList` (todolist.dfy): the `Todo` record and what `mark`, `delete` and `clear done` make of a list, with the lemmas about them.
- `Prompts` (prompts.dfy): `yes_no_choice` and `ask_for_color` over the stream of answers.
- `Persistence` (persistence.dfy): the rows `save` writes and the state `load` rebuilds.
- `Commands` (commands.dfy): the command tables, the argument-count check and the handler lookup.
- `App` (app.dfy): class `Main`, whose methods update `todos`, `tags` and `hasChanged` in place, and `Step`, one turn of the dispatch loop.

What the code does, stated as the model states it:

- `clear done` runs `todos.pop(idx)` inside a comprehension over `range(len(todos) - 1)`, with the length fixed before any pop. It therefore skips the item that shifts into a freed slot. It never looks at the last position of the original list unless something was popped first. It raises an uncaught `IndexError` once the index reaches the shortened list, for example on four done items. The model keeps this behaviour. It proves that the list left behind is a subsequence that keeps every not-done item, and that failure needs at least two done items.
- The dispatcher passes `delete` its argument as a string, so `del todos[idx]` always raises `TypeError`. That error is caught, so the list never changes.
- `change_tag_color` passes the argument-count check only with 0 arguments. Its handler takes 1, so it always ends in an uncaught `TypeError`.
- `clearscr` has no handler, so it ends in an uncaught `KeyError`.
- Every command that reaches a handler sets the unsaved-changes flag, including `help` and a `mark` that reports an error.

Three further behaviours of the code, stated as the model states them:

- `load` ends by calling `close_conn_and_print` with `True` (main.py:211), so after a load the unsaved-changes flag is set.
- `exit` saves to `db_file`, which is the constant `"uluto.db"` (main.py:23) and is never reassigned, whatever file was loaded or saved before.
- The help text promises that `delete` removes a specific todo (main.py:60). Reached from the dispatcher it removes nothing, because of the `TypeError` above.

## Model

| member | source | states |
|---|---|---|
| `PyStr.Split` | main.py:242 | every token of a line is non-empty and free of whitespace |
| `PyStr.SplitJoin` | main.py:242 | splitting words joined by spaces gives back exactly those words, in order |
| `PyStr.SplitSep` | main.py:242 | a run of one or more whitespace characters after a word is a single separator: the word is the first token and the rest is split on its own |
| `PyStr.SplitLeadingSpace` | main.py:242 | whitespace in front of a line adds no token |
| `PyStr.SplitBlank` | main.py:242-245 | a line yields no tokens (and the turn does nothing) exactly when it is all whitespace |
| `PyStr.SplitStrip` | main.py:242 | stripping before splitting does not change the tokens |
| `PyStr.LowerIsY` | main.py:228-232 | an answer lower-cases to "y" exactly when it is "y" or "Y" |
| `PyInt.ParseDigits` | main.py:132 | a digit string is accepted exactly when it is non-empty, made of digits and underscores, starts and ends with a digit and has no two underscores in a row; its value is that of the digits with the underscores taken out |
| `PyInt.ParseInt` | main.py:132 | `int()` accepts a string exactly when, after stripping whitespace and one optional sign, the rest is an accepted digit string; the value carries the sign |
| `PyInt.WellFormedDigitsInit` | main.py:132 | dropping the last digit and an underscore before it keeps a digit string accepted exactly when it was, and keeps its digits |
| `PyInt.Decimal` | main.py:250 | the text of a count is all digits, without a leading zero |
| `PyInt.ParseIntToString` | main.py:132 | `int()` reads back the text `str()` writes for every integer |
| `TodoList.ResolveIndex` | main.py:132 | a list subscript is valid exactly when -n <= i < n, and negative subscripts count from the end |
| `TodoList.RemoveAt` | main.py:139 | removing position k keeps the items before k and shifts the items after it left by one |
| `TodoList.Marked` | main.py:126-134 | "all" flips every flag; a non-integer gives ValueError and an out-of-range index IndexError, both leaving the list as it was; the length never changes |
| `TodoList.MarkAllTwice` | main.py:128-130 | `mark all` twice gives back the original list |
| `TodoList.MarkOne` | main.py:131-132 | a valid `mark <i>` flips only the item at Python index i |
| `TodoList.Deleted` | main.py:137-142 | a str subscript raises TypeError and an out-of-range int IndexError, both leaving the list as it was; a valid int removes exactly the item at that Python index, keeping the others in order |
| `TodoList.ClearedDoneKeepsUndone` | main.py:147 | what `clear done` leaves, even when it fails, is a subsequence of the list that keeps every not-done item in order |
| `TodoList.ClearedDoneKeepsLast` | main.py:147 | a list whose only done item is the last one comes back unchanged and without error |
| `TodoList.ClearedDoneFailure` | main.py:147 | `clear done` can only fail with IndexError, and only on a list with at least two done items |
| `TodoList.ClearedDoneFourDone` | main.py:147 | four done items: two are popped and the third read raises IndexError |
| `TodoList.ClearedDoneSkipsShifted` | main.py:147 | of two adjacent done items the second shifts into the freed slot and survives |
| `Prompts.YesNoChoice` | main.py:226-234 | empty answers are skipped; the first non-empty answer decides, yes exactly for "y"/"Y"; no such answer is the end of input |
| `Prompts.AskForColor` | main.py:81-100 | the first palette member or "random" ends the question; the result is always a palette member, "random" giving the picked one; no such answer is the end of input |
| `Prompts.HelpReprompts` | main.py:87-91 | "?" only asks again |
| `Persistence.TodoRowsRoundTrip` | main.py:200-205 | reading back the todo rows gives the same list, order and flags included |
| `Persistence.TagRowsRoundTrip` | main.py:207-209 | reading back a listing of every tag once, in any order, gives the same tag map |
| `Persistence.SaveLoadRoundTrip` | main.py:174-209 | the todos and tags rebuilt from the tables save wrote are the ones it saved |
| `Commands.Decide` | main.py:245-270 | blank input does nothing; a checked command runs only when its argument count matches the table, and a mismatch reports expected and given counts; exit, load and save default to uluto.db; anything else is invalid |
| `Commands.LookupHandler` | main.py:41-48 | a command without a handler is a KeyError, a handler given the wrong number of arguments a TypeError, otherwise the handler runs with the token it was given |
| `Commands.MappedOutcome` | main.py:27-48 | of the checked commands, only add_todo, mark, delete, clear and help reach their handler; change_tag_color is an arity TypeError and clearscr a KeyError |
| `App.TagOffer` | main.py:107-113 | a created tag always gets a palette color, and it is not created exactly when the answer is no |
| `App.Main.constructor` | main.py:19-24 | the program starts with no todos, no tags and nothing unsaved |
| `App.Main.AddTag` | main.py:120-123 | the tag gets the color (overwriting any old one), the todos stay, the flag is set |
| `App.Main.AddTodo` | main.py:103-117 | the new not-done todo is appended; the tag map changes only when an unknown tag is accepted, and then only at that tag with the chosen color; running out of answers changes nothing |
| `App.Main.MarkAsDone` | main.py:126-134 | the list becomes what `Marked` gives, errors are caught, tags and flag are untouched |
| `App.Main.Delete` | main.py:137-142 | the list becomes what `Deleted` gives, errors are caught |
| `App.Main.Clear` | main.py:145-151 | "done" leaves what `ClearedDone` gives and lets its IndexError escape; "all" empties the list; anything else changes nothing |
| `App.Main.ChangeTagColor` | main.py:154-156 | the tag, present or not, gets the chosen color; the flag is not set |
| `App.Main.TableRows` | main.py:174-178 | one row per todo in list order with done as 1/0, and one row per tag, each tag exactly once |
| `App.Main.CloseConnAndPrint` | main.py:216-219 | sets the flag to the given value and nothing else |
| `App.Main.Save` | main.py:159-184 | overwriting an existing file needs a yes; on success the file holds exactly the state's rows and the flag is cleared; a declined or failed write changes nothing |
| `App.Main.Load` | main.py:187-213 | the state is replaced by the one rebuilt from the file's rows and the flag is set; a missing database changes nothing |
| `App.Main.Step` | main.py:240-270 | one turn: mismatched counts, invalid and blank input change nothing; every dispatched handler that returns sets the flag; a `clear done` continues exactly when the pop loop does not fail; mark, clear, delete and help keep the tag map and consume no answers; add_todo appends the todo and creates its tag only after a yes, with the questions' remaining answers; delete never removes; change_tag_color and clearscr crash; exit ends the program after an optional save, and with unsaved changes and no answer left it crashes with EOFError |
| `App.SaveThenLoad` | main.py:159-213 | a completed save followed by a load of the same file restores the todos and the tags |

## Left out

- `render` (main.py:72-78), the greeting, the help text and `print_help` are console output only. `render` looks up `tags[todo.tag]` and would raise KeyError for a todo whose tag was never registered. That gap is not modelled.
- The messages that operations print are not modelled. The dispatcher's own two messages are, through `Commands.Notice`.
- `input()` and the prompt library are replaced by a sequence of answers. Running out of answers is modelled as the EOFError that `input()` raises.
- `random.choice` is replaced by an index `pick` into the palette, chosen by the caller.
- The `while True` loop of `run` is modelled as one turn, `App.Main.Step`. Repeating it is left to the caller.
- sqlite and the file system are replaced by a map from file name to the two tables of each existing, non-empty database. A write failure is a flag that leaves everything unchanged. In the real program, `os.remove` has already deleted a confirmed target at that point. Rows are assumed to be read back in the order they were inserted.
- Python dicts iterate in insertion order. The model's tag map has no order, so `save` may write the tag rows in any order. Reading them back gives the same map either way.
- `int()` also accepts non-ASCII decimal digits, and recent Python versions reject strings of more than 4300 digits. Neither is modelled. `str.lower` is modelled on ASCII letters only.
- App.Main.Step: for `save` and `exit`, it states the written tables only when the target did not exist before and the write succeeded. The other cases are stated on `App.Main.Save`.
