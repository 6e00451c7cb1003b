/**
 * The two interactive questions, read from the stream of answers the user types
 * (one string per input() call). Running out of answers is where input() raises EOFError.
 */
module Prompts {
  import PyStr

  /** The palette offered for tag colors. */
  const Colors: seq<string> := ["red", "green", "yellow", "blue", "magenta", "cyan"]

  /** The value a question settles on and the answers left unread, or the end of the input. */
  datatype Reply<T> = Answered(value: T, rest: seq<string>) | EndOfInput

  /**
   * yes_no_choice: empty answers re-prompt; the first non-empty answer decides,
   * and it is "yes" exactly when it lower-cases to "y".
   */
  function YesNoChoice(answers: seq<string>): (r: Reply<bool>)
    ensures r.EndOfInput? <==> forall j :: 0 <= j < |answers| ==> answers[j] == ""
    ensures r.Answered? ==>
              && |r.rest| < |answers|
              && var k := |answers| - |r.rest| - 1;
              && answers[k] != ""
              && (forall j :: 0 <= j < k ==> answers[j] == "")
              && r.rest == answers[k + 1..]
              && (r.value <==> answers[k] == "y" || answers[k] == "Y")
    decreases |answers|
  {
    if answers == [] then EndOfInput
    else
      var a := PyStr.Lower(answers[0]);
      if a != "" then
        PyStr.LowerIsY(answers[0]);
        Answered(a == "y", answers[1..])
      else
        var r := YesNoChoice(answers[1..]);
        assert forall j :: 1 <= j < |answers| ==> answers[j] == answers[1..][j - 1];
        r
  }

  /** An answer that ends ask_for_color: a palette member or "random". */
  predicate EndsColorPrompt(a: string) {
    a in Colors || a == "random"
  }

  /**
   * ask_for_color: "?" and anything outside the palette re-prompt; a palette member is taken
   * as it is; "random" becomes the palette member that random.choice picked (index `pick`).
   */
  function AskForColor(answers: seq<string>, pick: nat): (r: Reply<string>)
    requires pick < |Colors|
    ensures r.Answered? ==> r.value in Colors
    ensures r.EndOfInput? <==> forall j :: 0 <= j < |answers| ==> !EndsColorPrompt(answers[j])
    ensures r.Answered? ==>
              && |r.rest| < |answers|
              && var k := |answers| - |r.rest| - 1;
              && EndsColorPrompt(answers[k])
              && (forall j :: 0 <= j < k ==> !EndsColorPrompt(answers[j]))
              && r.rest == answers[k + 1..]
              && r.value == (if answers[k] == "random" then Colors[pick] else answers[k])
    decreases |answers|
  {
    if answers == [] then EndOfInput
    else if answers[0] == "random" then Answered(Colors[pick], answers[1..])
    else if answers[0] in Colors then Answered(answers[0], answers[1..])
    else
      var r := AskForColor(answers[1..], pick);
      assert forall j :: 1 <= j < |answers| ==> answers[j] == answers[1..][j - 1];
      r
  }

  /** "?" only lists the palette and asks again. */
  lemma HelpReprompts(rest: seq<string>, pick: nat)
    requires pick < |Colors|
    ensures AskForColor(["?"] + rest, pick) == AskForColor(rest, pick)
  {
    assert forall j :: 0 <= j < |Colors| ==> |Colors[j]| > 1;
    assert !EndsColorPrompt("?");
    assert (["?"] + rest)[1..] == rest;
  }
}
