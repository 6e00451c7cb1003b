/**
 * The dispatcher's decision for one input line: the command tables, the argument-count
 * check, and the lookup of the handler that `cmd_map[cmd](*args)` performs.
 */
module Commands {
  import PyStr
  import PyInt

  /** The database file used when save, load or exit name none. */
  const DbFile: string := "uluto.db"

  /** Commands that are checked against the argument-count table. */
  const Cmds: seq<string> := ["add_todo", "add_tag", "mark", "delete", "clear", "change_tag_color", "clearscr", "help"]

  /** Number of arguments each checked command must be given. */
  const CmdArgumentRequired: map<string, nat> := map[
    "add_todo" := 0, "add_tag" := 2, "mark" := 1, "delete" := 1, "clear" := 1,
    "change_tag_color" := 0, "clearscr" := 0, "help" := 0]

  /** The handler table: which commands have a handler, and how many arguments its callable takes. */
  const HandlerArity: map<string, nat> := map[
    "add_todo" := 0, "mark" := 1, "delete" := 1, "clear" := 1, "change_tag_color" := 1, "help" := 0]

  /** The tokens of one input line. */
  function ParseLine(line: string): (words: seq<string>) {
    PyStr.Split(PyStr.Strip(line))
  }

  datatype Decision =
    | Blank
    | WrongArgCount(expected: nat, got: nat)
    | AddTagCall(name: string, color: string)
    | Mapped(cmd: string, args: seq<string>)
    | ExitCall
    | LoadCall(target: string)
    | SaveCall(target: string)
    | Invalid(cmd: string)

  /** What the dispatcher does with the tokens of one line. */
  function Decide(tokens: seq<string>): (d: Decision)
    ensures d.Blank? <==> tokens == []
    ensures d.WrongArgCount? <==>
              tokens != [] && tokens[0] in Cmds && CmdArgumentRequired[tokens[0]] != |tokens| - 1
    ensures d.WrongArgCount? ==>
              d.expected == CmdArgumentRequired[tokens[0]] && d.got == |tokens| - 1
    ensures d.AddTagCall? || d.Mapped? <==>
              tokens != [] && tokens[0] in Cmds && CmdArgumentRequired[tokens[0]] == |tokens| - 1
    ensures d.AddTagCall? ==> tokens == ["add_tag", d.name, d.color]
    ensures d.Mapped? ==> d.cmd == tokens[0] && d.cmd != "add_tag" && d.args == tokens[1..] && |d.args| <= 1
    ensures d.ExitCall? <==> tokens != [] && tokens[0] == "exit"
    ensures d.LoadCall? <==> tokens != [] && tokens[0] == "load"
    ensures d.SaveCall? <==> tokens != [] && tokens[0] == "save"
    ensures d.LoadCall? ==> d.target == if |tokens| > 1 then tokens[1] else DbFile
    ensures d.SaveCall? ==> d.target == if |tokens| > 1 then tokens[1] else DbFile
    ensures d.Invalid? <==>
              tokens != [] && tokens[0] !in Cmds && tokens[0] !in ["exit", "load", "save"]
    ensures d.Invalid? ==> d.cmd == tokens[0]
  {
    if tokens == [] then Blank
    else
      var cmd := tokens[0];
      if cmd in Cmds then
        var required := CmdArgumentRequired[cmd];
        if required != |tokens| - 1 then WrongArgCount(required, |tokens| - 1)
        else if cmd == "add_tag" then AddTagCall(tokens[1], tokens[2])
        else Mapped(cmd, if |tokens| > 1 then [tokens[1]] else [])
      else if cmd == "exit" then ExitCall
      else if cmd == "load" then LoadCall(if |tokens| > 1 then tokens[1] else DbFile)
      else if cmd == "save" then SaveCall(if |tokens| > 1 then tokens[1] else DbFile)
      else Invalid(cmd)
  }

  /** The operation a handler runs, with the argument token it passes on. */
  datatype Handler =
    | AddTodoHandler
    | MarkHandler(idx: string)
    | DeleteHandler(idx: string)
    | ClearHandler(kind: string)
    | ChangeTagColorHandler(name: string)
    | HelpHandler

  /** `cmd_map[cmd](*args)`: a missing entry raises KeyError, a wrong argument count TypeError. */
  datatype Lookup = Runs(handler: Handler) | NoEntry | ArityMismatch(takes: nat, given: nat)

  function LookupHandler(cmd: string, args: seq<string>): (r: Lookup)
    ensures r.NoEntry? <==> cmd !in HandlerArity
    ensures r.ArityMismatch? <==> cmd in HandlerArity && HandlerArity[cmd] != |args|
    ensures r.ArityMismatch? ==> r.takes == HandlerArity[cmd] && r.given == |args|
    ensures r.Runs? ==> match r.handler
              case AddTodoHandler => cmd == "add_todo"
              case MarkHandler(i) => cmd == "mark" && args == [i]
              case DeleteHandler(i) => cmd == "delete" && args == [i]
              case ClearHandler(k) => cmd == "clear" && args == [k]
              case ChangeTagColorHandler(n) => cmd == "change_tag_color" && args == [n]
              case HelpHandler => cmd == "help"
  {
    if cmd !in HandlerArity then NoEntry
    else if HandlerArity[cmd] != |args| then ArityMismatch(HandlerArity[cmd], |args|)
    else if cmd == "add_todo" then Runs(AddTodoHandler)
    else if cmd == "mark" then Runs(MarkHandler(args[0]))
    else if cmd == "delete" then Runs(DeleteHandler(args[0]))
    else if cmd == "clear" then Runs(ClearHandler(args[0]))
    else if cmd == "change_tag_color" then Runs(ChangeTagColorHandler(args[0]))
    else Runs(HelpHandler)
  }

  /**
   * Of the checked commands that pass the argument-count check, exactly add_todo, mark, delete,
   * clear and help reach their handler: change_tag_color is checked for 0 arguments while its
   * handler takes 1 (TypeError), and clearscr has no handler at all (KeyError).
   */
  lemma {:induction false} MappedOutcome(tokens: seq<string>)
    requires Decide(tokens).Mapped?
    ensures var d := Decide(tokens);
            && (LookupHandler(d.cmd, d.args).Runs? <==> d.cmd in ["add_todo", "mark", "delete", "clear", "help"])
            && (d.cmd == "change_tag_color" ==> LookupHandler(d.cmd, d.args) == ArityMismatch(1, 0))
            && (d.cmd == "clearscr" ==> LookupHandler(d.cmd, d.args) == NoEntry)
  {
    var d := Decide(tokens);
    assert d.cmd in Cmds && d.cmd != "add_tag";
    assert |d.args| == CmdArgumentRequired[d.cmd];
  }

  /** The message printed when the argument count does not match. */
  function ArgCountMessage(expected: nat, got: nat): (msg: string) {
    "Error: expected " + PyInt.IntToString(expected) + " argument(s), got " + PyInt.IntToString(got)
  }

  /** The message printed for a command the dispatcher does not know. */
  function InvalidCommandMessage(cmd: string): (msg: string) {
    cmd + ": Invalid command."
  }

  /** What the dispatcher itself prints for a decision (the operations print their own messages). */
  function Notice(d: Decision): (msg: string) {
    match d
    case WrongArgCount(e, g) => ArgCountMessage(e, g)
    case Invalid(cmd) => InvalidCommandMessage(cmd)
    case _ => ""
  }
}
