/**
 * The content scaffold: the removal of the example chapters (`clean_contents`) and the
 * generated introduction (`create_first_chapter`). The `contents/` directory is a map from
 * file name to file text.
 */
module Scaffold {
  import opened Text

  /** A name the glob `*.md` matches. */
  predicate IsMarkdown(name: string) {
    EndsWith(name, ".md")
  }

  /** A name that starts with one of the example-chapter prefixes "000." and "001.". */
  predicate HasExamplePrefix(name: string) {
    StartsWith(name, "000.") || StartsWith(name, "001.")
  }

  /** A file the cleanup deletes. */
  predicate IsPlaceholder(name: string) {
    IsMarkdown(name) && HasExamplePrefix(name)
  }

  /** The directory after the cleanup. */
  function Cleaned(dir: map<string, string>): (kept: map<string, string>)
    ensures forall name :: name in kept <==> name in dir && !IsPlaceholder(name)
    ensures forall name :: name in kept ==> kept[name] == dir[name]
  {
    map name | name in dir && !IsPlaceholder(name) :: dir[name]
  }

  /** `clean_contents`: every markdown file is visited and the example chapters are deleted. */
  method CleanContents(dir: map<string, string>) returns (kept: map<string, string>)
    ensures kept == Cleaned(dir)
  {
    kept := dir;
    var pending := set name | name in dir && IsMarkdown(name);
    while pending != {}
      invariant forall name :: name in pending ==> name in dir && IsMarkdown(name)
      invariant forall name :: name in kept <==> name in dir && (name in pending || !IsPlaceholder(name))
      invariant forall name :: name in kept ==> kept[name] == dir[name]
      decreases |pending|
    {
      var name :| name in pending;
      if HasExamplePrefix(name) {
        kept := kept - {name};
      }
      pending := pending - {name};
    }
    assert kept.Keys == Cleaned(dir).Keys;
  }

  /** The name of the generated introduction. */
  const IntroName: string := "001.introduction.md"

  /** The introduction up to the title. */
  const IntroHead: string := "# Introduction\n\nWelcome to "

  /** What separates the title from the description. */
  const AboutHeading: string := "\n\n## About This Book\n\n"

  /** The rest of the introduction after the description: three fixed sections. */
  const IntroTail: string :=
    "\n\n## How to Use This Book\n\nThis book is organized into chapters, each focusing on a specific topic. "
    + "You can read it sequentially or jump to the chapters that interest you most.\n\n"
    + "## Prerequisites\n\n[List any prerequisites or required knowledge here]\n\n"
    + "## Acknowledgments\n\n[Add your acknowledgments here]\n"

  /** The generated introduction: the title after "Welcome to", the description under "About This Book". */
  function ChapterText(title: string, description: string): string {
    IntroHead + title + AboutHeading + description + IntroTail
  }

  /** The directory after the cleanup and the new introduction. */
  function Scaffolded(dir: map<string, string>, title: string, description: string): (r: map<string, string>)
    ensures IntroName in r && r[IntroName] == ChapterText(title, description)
    ensures forall name :: name in r && name != IntroName ==> name in dir && !IsPlaceholder(name) && r[name] == dir[name]
    ensures forall name :: name in dir && !IsPlaceholder(name) ==> name in r
  {
    Cleaned(dir)[IntroName := ChapterText(title, description)]
  }

  /** The generated introduction is itself an example chapter: a later cleanup deletes it. */
  lemma IntroIsPlaceholder()
    ensures IsPlaceholder(IntroName)
  {
    assert IntroName[..4] == "001.";
    assert IntroName[|IntroName| - 3..] == ".md";
  }

  /**
   * Scaffolding again replaces the introduction of the first run with the new one and keeps
   * everything else: the result is as if the first run had not scaffolded.
   */
  lemma ScaffoldAgain(dir: map<string, string>, title: string, description: string, title2: string, description2: string)
    ensures Scaffolded(Scaffolded(dir, title, description), title2, description2) == Scaffolded(dir, title2, description2)
  {
    IntroIsPlaceholder();
    var once := Scaffolded(dir, title, description);
    var a := Scaffolded(once, title2, description2);
    var b := Scaffolded(dir, title2, description2);
    assert a.Keys == b.Keys;
  }

  /**
   * Two texts built from the same frame around a single-line first part and any second part
   * agree only when both parts agree, provided the middle of the frame starts a new line.
   */
  lemma FrameInjective(head: string, a: string, middle: string, b: string, tail: string,
                       a2: string, b2: string)
    requires NoNewline(a) && NoNewline(a2) && middle != [] && middle[0] == '\n'
    requires head + a + middle + b + tail == head + a2 + middle + b2 + tail
    ensures a == a2 && b == b2
  {
    var x := a + (middle + b + tail);
    var y := a2 + (middle + b2 + tail);
    assert head + a + middle + b + tail == head + x;
    assert head + a2 + middle + b2 + tail == head + y;
    DropPrefix(head, x, y);
    FirstBreak(a, middle + b + tail);
    FirstBreak(a2, middle + b2 + tail);
    assert |a| == |a2|;
    assert a == x[..|a|] == y[..|a|] == a2;
    assert x == (a + middle) + (b + tail);
    assert y == (a + middle) + (b2 + tail);
    DropPrefix(a + middle, b + tail, b2 + tail);
    assert b == (b + tail)[..|b|] == (b2 + tail)[..|b|] == b2;
  }

  /** Equal texts with a common start agree after it. */
  lemma DropPrefix(p: string, x: string, y: string)
    requires p + x == p + y
    ensures x == y
  {
    assert x == (p + x)[|p|..];
    assert y == (p + y)[|p|..];
  }

  /** A single line followed by a line break: the first line break is right after the line. */
  lemma FirstBreak(a: string, rest: string)
    requires NoNewline(a) && rest != [] && rest[0] == '\n'
    ensures |a| < |a + rest| && (a + rest)[|a|] == '\n'
    ensures forall i :: 0 <= i < |a| ==> (a + rest)[i] != '\n'
  {
  }

  /**
   * Different titles or descriptions give different introductions, as long as the titles
   * are single lines: the text determines both.
   */
  lemma ChapterTextInjective(title: string, description: string, title2: string, description2: string)
    requires NoNewline(title) && NoNewline(title2)
    requires ChapterText(title, description) == ChapterText(title2, description2)
    ensures title == title2 && description == description2
  {
    assert AboutHeading[0] == '\n';
    FrameInjective(IntroHead, title, AboutHeading, description, IntroTail, title2, description2);
  }
}
