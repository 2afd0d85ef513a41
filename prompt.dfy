/**
 * The two console questions of the initializer (init.py, `get_input` and
 * `get_boolean_input`). The console is the sequence of answer lines still to be
 * typed; every question consumes lines from its front, and reading past the last
 * line is end of input (Python's `EOFError`).
 */
module Prompt {
  import opened Base
  import opened Text

  /** What a question yields: an answer and the lines left after it, or end of input. */
  datatype Reply<T> = Got(value: T, rest: seq<string>) | Eof

  /**
   * `get_input(prompt, default)`: the answer is trimmed; a blank answer gives the
   * default. A missing default (`None`) is the empty string, which Python treats alike.
   */
  function GetInput(answer: string, default: string): (r: string)
    ensures Strip(answer) != "" ==> r == Strip(answer)
    ensures Strip(answer) == "" ==> r == default
  {
    var result := Strip(answer);
    if default != "" then (if result != "" then result else default) else result
  }

  /** A question with a text answer: one line read, then `GetInput`. */
  function Ask(lines: seq<string>, default: string): (r: Reply<string>)
    ensures r.Eof? <==> lines == []
    ensures r.Got? ==> r.rest == lines[1..] && r.value == GetInput(lines[0], default)
  {
    if lines == [] then Eof else Got(GetInput(lines[0], default), lines[1..])
  }

  /**
   * One round of `get_boolean_input`: after trimming and lower-casing, a blank answer
   * is the default, "y"/"yes" is yes, "n"/"no" is no, and anything else is no answer.
   */
  function ParseYesNo(answer: string, default: bool): (r: Option<bool>)
  {
    var result := Lower(Strip(answer));
    if result == "" then Some(default)
    else if result == "y" || result == "yes" then Some(true)
    else if result == "n" || result == "no" then Some(false)
    else None
  }

  /** The answers `ParseYesNo` accepts, in both directions. */
  lemma ParseYesNoAccepts(answer: string, default: bool)
    ensures ParseYesNo(answer, default) == Some(true) <==>
      (Strip(answer) == "" && default) || Lower(Strip(answer)) in {"y", "yes"}
    ensures ParseYesNo(answer, default) == Some(false) <==>
      (Strip(answer) == "" && !default) || Lower(Strip(answer)) in {"n", "no"}
    ensures ParseYesNo(answer, default).None? <==> Lower(Strip(answer)) !in {"", "y", "yes", "n", "no"}
  {
  }

  /**
   * The retry loop of `get_boolean_input`, for any way `parse` of reading one answer:
   * the answer lines are read until one parses.
   */
  function FirstAnswer<T>(lines: seq<string>, parse: string -> Option<T>): (r: Reply<T>)
    ensures r.Got? ==> |r.rest| < |lines| && r.rest == lines[|lines| - |r.rest|..]
    decreases |lines|
  {
    if lines == [] then Eof
    else if parse(lines[0]).Some? then Got(parse(lines[0]).value, lines[1..])
    else FirstAnswer(lines[1..], parse)
  }

  /**
   * What `FirstAnswer` reads: the first answer that parses decides, every answer before it
   * was rejected, and end of input comes only after rejected answers.
   */
  lemma {:induction false} FirstAnswerDecides<T>(lines: seq<string>, parse: string -> Option<T>)
    ensures var r := FirstAnswer(lines, parse);
      && (r.Got? ==> parse(lines[|lines| - |r.rest| - 1]) == Some(r.value))
      && (r.Got? ==> AllRejected(lines[..|lines| - |r.rest| - 1], parse))
      && (r.Eof? ==> AllRejected(lines, parse))
    decreases |lines|
  {
    if lines != [] && parse(lines[0]).None? {
      FirstAnswerDecides(lines[1..], parse);
      var r := FirstAnswer(lines[1..], parse);
      if r.Got? {
        var k := |lines| - |r.rest| - 1;
        RejectedPrepend(lines[0], lines[1..][..k - 1], parse);
        assert [lines[0]] + lines[1..][..k - 1] == lines[..k];
      } else {
        RejectedPrepend(lines[0], lines[1..], parse);
        assert [lines[0]] + lines[1..] == lines;
      }
    } else if lines != [] {
      assert lines[..0] == [];
    }
  }

  /** No line of `lines` is an answer `parse` accepts. */
  predicate AllRejected<T>(lines: seq<string>, parse: string -> Option<T>) {
    forall i :: 0 <= i < |lines| ==> parse(lines[i]).None?
  }

  lemma RejectedPrepend<T>(line: string, lines: seq<string>, parse: string -> Option<T>)
    requires parse(line).None? && AllRejected(lines, parse)
    ensures AllRejected([line] + lines, parse)
  {
    forall i | 0 <= i < |lines| + 1 ensures parse(([line] + lines)[i]).None? {
      if i > 0 { assert ([line] + lines)[i] == lines[i - 1]; }
    }
  }

  /** `get_boolean_input(prompt, default)` as a function of the answer lines. */
  function YesNo(lines: seq<string>, default: bool): Reply<bool> {
    FirstAnswer(lines, (answer: string) => ParseYesNo(answer, default))
  }

  /** `get_boolean_input`: re-asks until an answer parses. */
  method AskYesNo(lines: seq<string>, default: bool) returns (r: Reply<bool>)
    ensures r == YesNo(lines, default)
  {
    var input := lines;
    while true
      invariant YesNo(input, default) == YesNo(lines, default)
      decreases |input|
    {
      if input == [] {
        return Eof;
      }
      var answer := input[0];
      input := input[1..];
      var parsed := ParseYesNo(answer, default);
      if parsed.Some? {
        return Got(parsed.value, input);
      }
    }
  }
}
