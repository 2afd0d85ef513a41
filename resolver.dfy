/**
 * Resolution of the configuration in `main` (init.py:151-214): the settings gate, the
 * field questions with their defaults, the author loop, the license menu and the
 * confirmation question, over the sequence of answer lines.
 */
module Resolver {
  import opened Base
  import opened Text
  import opened Prompt
  import opened Settings

  /** Where resolution ends. */
  datatype Resolved =
    | KeepExisting                                            // stored settings kept as they are
    | InputEnded                                              // the answers ran out at a question
    | Reviewed(config: Config, apply: bool, rest: seq<string>) // answer to "Apply these settings?"

  /**
   * The author loop from the authors entered so far: the first author defaults to
   * "Your Name", later blank answers end the loop, and non-blank answers are appended.
   */
  function AuthorLoop(authors: seq<string>, lines: seq<string>): Reply<seq<string>>
    decreases |lines|
  {
    if lines == [] then Eof
    else
      var author := GetInput(lines[0], if authors == [] then "Your Name" else "");
      if author == "" && authors != [] then Got(authors, lines[1..])
      else AuthorLoop(if author != "" then authors + [author] else authors, lines[1..])
  }

  /** Once one author is in, the loop appends the trimmed answers up to the first blank one. */
  lemma {:induction false} MoreAuthors(authors: seq<string>, lines: seq<string>)
    requires authors != []
    ensures var r := AuthorLoop(authors, lines);
      && (r.Got? ==>
            && |authors| <= |r.value| && r.value[..|authors|] == authors
            && |r.value| - |authors| < |lines|
            && (forall i :: |authors| <= i < |r.value| ==>
                  r.value[i] == Strip(lines[i - |authors|]) && r.value[i] != "")
            && Strip(lines[|r.value| - |authors|]) == ""
            && r.rest == lines[|r.value| - |authors| + 1..])
      && (r.Eof? ==> forall i :: 0 <= i < |lines| ==> Strip(lines[i]) != "")
    decreases |lines|
  {
    if lines != [] {
      var author := GetInput(lines[0], "");
      if author != "" {
        var more := authors + [author];
        MoreAuthors(more, lines[1..]);
        var r := AuthorLoop(more, lines[1..]);
        assert AuthorLoop(authors, lines) == r;
        if r.Got? {
          assert r.value[..|authors|] == more[..|authors|];
          forall i | |authors| <= i < |r.value|
            ensures r.value[i] == Strip(lines[i - |authors|]) && r.value[i] != ""
          {
            if i > |authors| {
              assert lines[1..][i - |more|] == lines[i - |authors|];
            } else {
              assert r.value[i] == more[i];
            }
          }
          assert lines[1..][|r.value| - |more|] == lines[|r.value| - |authors|];
          assert lines[1..][|r.value| - |more| + 1..] == lines[|r.value| - |authors| + 1..];
        } else {
          forall i | 0 <= i < |lines| ensures Strip(lines[i]) != "" {
            if i > 0 { assert lines[i] == lines[1..][i - 1]; }
          }
        }
      }
    }
  }

  /** The first answer always gives an author: the trimmed answer, or "Your Name" when blank. */
  lemma FirstAuthor(lines: seq<string>)
    requires lines != []
    ensures GetInput(lines[0], "Your Name") != ""
    ensures Strip(lines[0]) == "" ==> GetInput(lines[0], "Your Name") == "Your Name"
    ensures AuthorLoop([], lines) == AuthorLoop([GetInput(lines[0], "Your Name")], lines[1..])
  {
    assert [] + [GetInput(lines[0], "Your Name")] == [GetInput(lines[0], "Your Name")];
  }

  /**
   * The authors collected from scratch: at least one; the first is the trimmed first
   * answer or "Your Name" when that answer is blank; the others are the following
   * non-blank answers, trimmed, in the order typed; the first blank answer after the
   * first ends the list.
   */
  lemma CollectedAuthors(lines: seq<string>)
    requires AuthorLoop([], lines).Got?
    ensures var r := AuthorLoop([], lines);
      && 1 <= |r.value| < |lines|
      && r.value[0] == GetInput(lines[0], "Your Name")
      && (forall i :: 1 <= i < |r.value| ==> r.value[i] == Strip(lines[i]))
      && (forall i :: 0 <= i < |r.value| ==> r.value[i] != "")
      && Strip(lines[|r.value|]) == ""
      && r.rest == lines[|r.value| + 1..]
  {
    var first := GetInput(lines[0], "Your Name");
    FirstAuthor(lines);
    MoreAuthors([first], lines[1..]);
    var r := AuthorLoop([first], lines[1..]);
    assert AuthorLoop([], lines) == r;
    var n := |r.value|;
    assert r.value[0] == r.value[..1][0] == first;
    forall i | 1 <= i < n ensures r.value[i] == Strip(lines[i]) && r.value[i] != "" {
      assert lines[1..][i - 1] == lines[i];
    }
    assert lines[1..][n - 1] == lines[n];
    assert lines[1..][n - 1 + 1..] == lines[n + 1..];
  }

  /** The answers run out in the author loop only if every answer after the first was non-blank. */
  lemma AuthorsRunOut(lines: seq<string>)
    requires AuthorLoop([], lines).Eof?
    ensures forall i :: 1 <= i < |lines| ==> Strip(lines[i]) != ""
  {
    if lines != [] {
      FirstAuthor(lines);
      MoreAuthors([GetInput(lines[0], "Your Name")], lines[1..]);
      forall i | 1 <= i < |lines| ensures Strip(lines[i]) != "" {
        assert lines[1..][i - 1] == lines[i];
      }
    }
  }

  lemma AuthorsNonEmpty(lines: seq<string>)
    ensures AuthorLoop([], lines).Got? ==> AuthorLoop([], lines).value != []
  {
    if AuthorLoop([], lines).Got? {
      CollectedAuthors(lines);
    }
  }

  /** The author loop of `main` (init.py:176-183). */
  method CollectAuthors(lines: seq<string>) returns (r: Reply<seq<string>>)
    ensures r == AuthorLoop([], lines)
  {
    var authors: seq<string> := [];
    var input := lines;
    while true
      invariant AuthorLoop(authors, input) == AuthorLoop([], lines)
      decreases |input|
    {
      if input == [] {
        return Eof;
      }
      var author := GetInput(input[0], if authors == [] then "Your Name" else "");
      input := input[1..];
      if author == "" && authors != [] {
        return Got(authors, input);
      }
      if author != "" {
        authors := authors + [author];
      }
    }
  }

  /**
   * The author list (init.py:169-184): a stored non-empty list is kept verbatim when the
   * user declines to change it; otherwise the author loop runs. Never empty.
   */
  function AuthorList(prior: Stored, lines: seq<string>): (r: Reply<seq<string>>)
    ensures r.Got? ==> r.value != []
  {
    var defaults := prior.authors.GetOr([]);
    if defaults != [] then
      match YesNo(lines, true)
      case Eof => Eof
      case Got(change, rest) =>
        if !change then Got(defaults, rest)
        else AuthorsNonEmpty(rest); AuthorLoop([], rest)
    else
      AuthorsNonEmpty(lines);
      AuthorLoop([], lines)
  }

  /** Declining to change a stored non-empty author list keeps it verbatim. */
  lemma KeepStoredAuthors(prior: Stored, lines: seq<string>)
    requires prior.authors.Some? && prior.authors.value != []
    requires YesNo(lines, true).Got? && !YesNo(lines, true).value
    ensures AuthorList(prior, lines) == Got(prior.authors.value, YesNo(lines, true).rest)
  {
  }

  /**
   * The field questions, from the title to the confirmation (init.py:165-214), with the
   * defaults taken from `prior`, the loaded settings (`NoSettings` when there are none).
   */
  function Questions(prior: Stored, lines: seq<string>, today: string): (r: Resolved)
    ensures r.Reviewed? ==> r.config.authors != []
    ensures r.Reviewed? && r.config.title == "" ==> prior.title == Some("")
  {
    match Ask(lines, prior.title.GetOr("My New Book"))
    case Eof => InputEnded
    case Got(title, l1) =>
      assert title == "" ==> prior.title == Some("");
      match AuthorList(prior, l1)
      case Eof => InputEnded
      case Got(authors, l2) => Details(prior, title, authors, l2, today)
  }

  /** The questions after the author list: publisher, date, description, license, confirmation. */
  function Details(prior: Stored, title: string, authors: seq<string>, lines: seq<string>, today: string): (r: Resolved)
    ensures r.Reviewed? ==> r.config.title == title && r.config.authors == authors
    ensures !r.KeepExisting?
  {
    match Ask(lines, prior.publisher.GetOr("Self Published"))
    case Eof => InputEnded
    case Got(publisher, l1) =>
      match Ask(l1, prior.date.GetOr(today))
      case Eof => InputEnded
      case Got(date, l2) =>
        match Ask(l2, prior.description.GetOr("A comprehensive guide to..."))
        case Eof => InputEnded
        case Got(description, l3) =>
          match Ask(l3, DefaultChoice(prior.license))
          case Eof => InputEnded
          case Got(choice, l4) =>
            match YesNo(l4, true)
            case Eof => InputEnded
            case Got(apply, l5) =>
              Reviewed(Config(title, authors, publisher, date, description, LicenseOfChoice(choice)), apply, l5)
  }

  /** The settings loaded from the settings file, or the empty record when there is none. */
  function Prior(store: Option<Stored>): Stored {
    store.GetOr(NoSettings)
  }

  /**
   * Resolution in `main`: with non-empty stored settings, "use them as defaults?" and,
   * if yes, "change them?" are asked first; answering no to the second keeps them.
   * The stored values remain the defaults even when the first is answered no.
   */
  function Session(store: Option<Stored>, lines: seq<string>, today: string): (r: Resolved)
    ensures r.KeepExisting? <==>
      && Truthy(Prior(store))
      && YesNo(lines, true).Got? && YesNo(lines, true).value
      && YesNo(YesNo(lines, true).rest, true).Got?
      && !YesNo(YesNo(lines, true).rest, true).value
    ensures r.Reviewed? ==> r.config.authors != []
    ensures r.Reviewed? && r.config.title == "" ==> store.Some? && store.value.title == Some("")
  {
    var prior := Prior(store);
    if !Truthy(prior) then Questions(prior, lines, today)
    else
      match YesNo(lines, true)
      case Eof => InputEnded
      case Got(useIt, l1) =>
        if !useIt then Questions(prior, l1, today)
        else
          match YesNo(l1, true)
          case Eof => InputEnded
          case Got(change, l2) =>
            if change then Questions(prior, l2, today) else KeepExisting
  }

  /** Resolution as `main` runs it: the settings gate, then the field questions. */
  method Resolve(store: Option<Stored>, lines: seq<string>, today: string) returns (r: Resolved)
    ensures r == Session(store, lines, today)
  {
    var prior := Prior(store);
    var input := lines;
    if Truthy(prior) {
      var useIt := AskYesNo(input, true);
      if useIt.Eof? {
        return InputEnded;
      }
      input := useIt.rest;
      if useIt.value {
        var change := AskYesNo(input, true);
        if change.Eof? {
          return InputEnded;
        }
        input := change.rest;
        if !change.value {
          return KeepExisting;
        }
      }
    }
    r := AskQuestions(prior, input, today);
  }

  /** The title and author questions, assigning the fields of the configuration in order. */
  method AskQuestions(prior: Stored, lines: seq<string>, today: string) returns (r: Resolved)
    ensures r == Questions(prior, lines, today)
  {
    var config := Config("", [], "", "", "", CcByNcSa);
    var input := lines;

    var title := Ask(input, prior.title.GetOr("My New Book"));
    if title.Eof? {
      return InputEnded;
    }
    config, input := config.(title := title.value), title.rest;

    var authors: Reply<seq<string>>;
    var defaults := prior.authors.GetOr([]);
    var keep := false;
    if defaults != [] {
      var change := AskYesNo(input, true);
      if change.Eof? {
        return InputEnded;
      }
      input := change.rest;
      keep := !change.value;
    }
    if keep {
      authors := Got(defaults, input);
    } else {
      authors := CollectAuthors(input);
    }
    assert authors == AuthorList(prior, title.rest);
    if authors.Eof? {
      return InputEnded;
    }
    config, input := config.(authors := authors.value), authors.rest;
    r := AskDetails(prior, config, input, today);
  }

  /** The remaining questions; `config` holds the title and authors already resolved. */
  method AskDetails(prior: Stored, config: Config, lines: seq<string>, today: string) returns (r: Resolved)
    ensures r == Details(prior, config.title, config.authors, lines, today)
  {
    var input := lines;
    var resolved := config;

    var publisher := Ask(input, prior.publisher.GetOr("Self Published"));
    if publisher.Eof? {
      return InputEnded;
    }
    resolved, input := resolved.(publisher := publisher.value), publisher.rest;

    var date := Ask(input, prior.date.GetOr(today));
    if date.Eof? {
      return InputEnded;
    }
    resolved, input := resolved.(date := date.value), date.rest;

    var description := Ask(input, prior.description.GetOr("A comprehensive guide to..."));
    if description.Eof? {
      return InputEnded;
    }
    resolved, input := resolved.(description := description.value), description.rest;

    var choice := Ask(input, DefaultChoice(prior.license));
    if choice.Eof? {
      return InputEnded;
    }
    resolved, input := resolved.(license := LicenseOfChoice(choice.value)), choice.rest;

    var apply := AskYesNo(input, true);
    if apply.Eof? {
      return InputEnded;
    }
    return Reviewed(resolved, apply.value, apply.rest);
  }

  /** Blank answers to the yes/no questions accept their default, yes. */
  lemma BlankIsYes(rest: seq<string>)
    ensures YesNo([""] + rest, true) == Got(true, rest)
  {
    assert Strip("") == "";
    assert ([""] + rest)[1..] == rest;
  }

  lemma AnswerNo(rest: seq<string>)
    ensures YesNo(["n"] + rest, true) == Got(false, rest)
  {
    assert Strip("n") == "n";
    assert Lower("n") == "n";
    assert (["n"] + rest)[1..] == rest;
  }

  lemma AnswerYes(rest: seq<string>)
    ensures YesNo(["y"] + rest, true) == Got(true, rest)
  {
    assert Strip("y") == "y";
    assert Lower("y") == "y";
    assert (["y"] + rest)[1..] == rest;
  }

  /** A blank answer to a text question takes its default. */
  lemma BlankTakesDefault(rest: seq<string>, default: string)
    ensures Ask([""] + rest, default) == Got(default, rest)
  {
    assert Strip("") == "";
    assert ([""] + rest)[1..] == rest;
  }

  /** Pressing Enter at the five remaining questions accepts every stored value or default. */
  lemma BlankDetails(prior: Stored, title: string, authors: seq<string>, today: string, rest: seq<string>)
    ensures Details(prior, title, authors, ["", "", "", "", ""] + rest, today)
      == Reviewed(Config(title, authors, prior.publisher.GetOr("Self Published"), prior.date.GetOr(today),
                         prior.description.GetOr("A comprehensive guide to..."),
                         LicenseOfChoice(DefaultChoice(prior.license))), true, rest)
  {
    var l4: seq<string> := [""] + rest;
    var l3: seq<string> := [""] + l4;
    var l2: seq<string> := [""] + l3;
    var l1: seq<string> := [""] + l2;
    assert ["", "", "", "", ""] + rest == [""] + l1;
    BlankTakesDefault(l1, prior.publisher.GetOr("Self Published"));
    BlankTakesDefault(l2, prior.date.GetOr(today));
    BlankTakesDefault(l3, prior.description.GetOr("A comprehensive guide to..."));
    BlankTakesDefault(l4, DefaultChoice(prior.license));
    BlankIsYes(rest);
  }

  /**
   * With no settings file, accepting every default resolves to the built-in defaults:
   * "My New Book", the single author "Your Name", "Self Published", today's date,
   * "A comprehensive guide to..." and CC-BY-NC-SA-4.0, and the settings are applied.
   */
  lemma FirstRunDefaults(today: string)
    ensures Session(None, ["", "", "", "", "", "", "", ""], today)
      == Reviewed(Config("My New Book", ["Your Name"], "Self Published", today,
                         "A comprehensive guide to...", CcByNcSa), true, [])
  {
    var details: seq<string> := ["", "", "", "", ""];
    var l2: seq<string> := [""] + details;
    var l1: seq<string> := [""] + l2;
    assert ["", "", "", "", "", "", "", ""] == [""] + l1;
    BlankTakesDefault(l1, "My New Book");
    FirstAuthor(l1);
    assert Strip("") == "";
    assert AuthorLoop(["Your Name"], l2) == Got(["Your Name"], details);
    assert AuthorList(NoSettings, l1) == Got(["Your Name"], details);
    assert details == ["", "", "", "", ""] + [];
    BlankDetails(NoSettings, "My New Book", ["Your Name"], today, []);
  }

  /**
   * With a settings file, answering "y" and then "n" to the two opening questions keeps the
   * existing project untouched.
   */
  lemma KeepWhenNotChanging(stored: Stored, rest: seq<string>, today: string)
    requires Truthy(stored)
    ensures Session(Some(stored), ["y", "n"] + rest, today) == KeepExisting
  {
    var l1 := ["n"] + rest;
    var lines := ["y"] + l1;
    assert ["y", "n"] + rest == lines;
    assert YesNo(lines, true) == Got(true, l1) by { AnswerYes(l1); }
    assert YesNo(l1, true) == Got(false, rest) by { AnswerNo(rest); }
    assert Session(Some(stored), lines, today).KeepExisting?;
  }

  /**
   * Declining to use the saved settings as defaults still uses them as defaults: answering
   * "n" to the first question leads to the field questions with the saved values as their
   * defaults, just as answering "y" to both opening questions does (`ChangeSaved`).
   */
  lemma DeclinedDefaultsStillApply(stored: Stored, rest: seq<string>, today: string)
    requires Truthy(stored)
    ensures Session(Some(stored), ["n"] + rest, today) == Questions(stored, rest, today)
  {
    assert YesNo(["n"] + rest, true) == Got(false, rest) by { AnswerNo(rest); }
  }

  /** Answering "y" and then "y" to the two opening questions goes on to the questions as well. */
  lemma ChangeSaved(stored: Stored, rest: seq<string>, today: string)
    requires Truthy(stored)
    ensures Session(Some(stored), ["y", "y"] + rest, today) == Questions(stored, rest, today)
  {
    var again := ["y"] + rest;
    var lines := ["y"] + again;
    assert ["y", "y"] + rest == lines;
    assert YesNo(lines, true) == Got(true, again) by { AnswerYes(again); }
    assert YesNo(again, true) == Got(true, rest) by { AnswerYes(rest); }
  }

  /** With saved settings, pressing Enter at both opening questions leads to the questions. */
  lemma AcceptSaved(stored: Stored, rest: seq<string>, today: string)
    requires Truthy(stored)
    ensures Session(Some(stored), ["", ""] + rest, today) == Questions(stored, rest, today)
  {
    var again := [""] + rest;
    var lines := [""] + again;
    assert ["", ""] + rest == lines;
    assert YesNo(lines, true) == Got(true, again) by { BlankIsYes(again); }
    assert YesNo(again, true) == Got(true, rest) by { BlankIsYes(rest); }
  }

  /** The questions on saved settings, keeping the authors and accepting every other default. */
  lemma QuestionsOnSaved(config: Config, rest: seq<string>, today: string)
    requires config.authors != []
    ensures Questions(StoredOf(config), ["", "n", "", "", "", "", ""] + rest, today) == Reviewed(config, true, rest)
  {
    var stored := StoredOf(config);
    var details: seq<string> := ["", "", "", "", ""] + rest;
    var l1: seq<string> := ["n"] + details;
    assert ["", "n", "", "", "", "", ""] + rest == [""] + l1;
    assert Ask([""] + l1, stored.title.GetOr("My New Book")) == Got(config.title, l1) by {
      BlankTakesDefault(l1, config.title);
    }
    assert AuthorList(stored, l1) == Got(config.authors, details) by { AnswerNo(details); }
    assert Details(stored, config.title, config.authors, details, today) == Reviewed(config, true, rest) by {
      BlankDetails(stored, config.title, config.authors, today, rest);
      DefaultChoiceRoundTrip(config.license);
    }
  }

  /**
   * Re-running on saved settings and pressing Enter everywhere, except for answering "n" to
   * "modify the author list?", reproduces the saved settings exactly.
   */
  lemma SavedSettingsReproduced(config: Config, rest: seq<string>, today: string)
    requires config.authors != []
    ensures Session(Some(StoredOf(config)), ["", "", "", "n", "", "", "", "", ""] + rest, today)
      == Reviewed(config, true, rest)
  {
    var lines: seq<string> := ["", "n", "", "", "", "", ""] + rest;
    assert ["", "", "", "n", "", "", "", "", ""] + rest == ["", ""] + lines;
    AcceptSaved(StoredOf(config), lines, today);
    QuestionsOnSaved(config, rest, today);
  }

  /**
   * Pressing Enter at every question on saved settings resets the author list to the single
   * placeholder "Your Name": the blank answer to "modify the author list?" means yes.
   */
  lemma EnterEverywhereResetsAuthors(config: Config, today: string)
    requires config.authors != []
    ensures Session(Some(StoredOf(config)), ["", "", "", "", "", "", "", "", "", "", ""], today)
      == Reviewed(config.(authors := ["Your Name"]), true, [])
  {
    var questions: seq<string> := ["", "", "", "", "", "", "", "", ""] + [];
    assert ["", "", "", "", "", "", "", "", "", "", ""] == ["", ""] + questions;
    AcceptSaved(StoredOf(config), questions, today);
    BlankQuestions(config, [], today);
  }

  /** The field questions on saved settings, answered with Enter throughout. */
  lemma BlankQuestions(config: Config, rest: seq<string>, today: string)
    requires config.authors != []
    ensures Questions(StoredOf(config), ["", "", "", "", "", "", "", "", ""] + rest, today)
      == Reviewed(config.(authors := ["Your Name"]), true, rest)
  {
    var stored := StoredOf(config);
    var details: seq<string> := ["", "", "", "", ""] + rest;
    var l1: seq<string> := ["", "", ""] + details;
    assert ["", "", "", "", "", "", "", "", ""] + rest == [""] + l1;
    BlankTakesDefault(l1, config.title);
    BlankAuthors(stored, details);
    BlankDetails(stored, config.title, ["Your Name"], today, rest);
    DefaultChoiceRoundTrip(config.license);
  }

  /** Enter at "modify the author list?" and at the first author keeps only "Your Name". */
  lemma BlankAuthors(stored: Stored, rest: seq<string>)
    requires stored.authors.Some? && stored.authors.value != []
    ensures AuthorList(stored, ["", "", ""] + rest) == Got(["Your Name"], rest)
  {
    var l2: seq<string> := [""] + rest;
    var l1: seq<string> := [""] + l2;
    assert ["", "", ""] + rest == [""] + l1;
    BlankIsYes(l1);
    FirstAuthor(l1);
    assert Strip("") == "";
    assert AuthorLoop(["Your Name"], l2) == Got(["Your Name"], rest);
  }
}
