/**
 * The initializer as a whole (`main`): resolve the settings, then, once they are confirmed,
 * write the metadata, patch the template, optionally scaffold the contents and save the
 * settings, in that order.
 *
 * The project directory is a `Workspace` object whose files the run changes in place; `steps`
 * records which writer changed which file, in order.
 */
module Init {
  import opened Base
  import opened Text
  import opened Prompt
  import opened Settings
  import opened Resolver
  import opened Metadata
  import opened Template
  import opened Scaffold

  /** A metadata mapping as YAML loads it: each key once. */
  type YamlMapping = d: Mapping | d.Valid() witness Empty

  /** `metadata.yaml`, as `yaml.safe_load` sees it. */
  datatype MetaFile =
    | NoMetadata                      // the file does not exist
    | Malformed                       // the YAML does not parse
    | EmptyDocument                   // a false document: empty, null, false, 0, "" or []
    | NotMapping                      // a true document without `update`: a list, a string, a number
    | Parsed(mapping: YamlMapping)

  /** The files the initializer reads and writes. */
  datatype Project = Project(
    settings: Option<Stored>,                 // .book-config.json
    metadata: MetaFile,                       // metadata.yaml
    template: Option<string>,                 // output/sample-book.typ
    contents: Option<map<string, string>>)    // the contents/ directory

  /** Why a run stops early. */
  datatype Failure =
    | AnswersEnded        // the answers ran out at a question
    | MetadataMissing
    | MetadataMalformed
    | MetadataNotMapping
    | TemplateMissing
    | ContentsMissing

  datatype Outcome =
    | KeptExisting                                  // the saved settings were kept as they are
    | Cancelled                                     // "Apply these settings?" was declined
    | Initialised(config: Config, scaffolded: bool)
    | Failed(reason: Failure)

  /** The writers, named by what they change. */
  datatype Step =
    | MetadataWritten
    | TemplateWritten
    | ExamplesRemoved
    | IntroductionWritten
    | SettingsSaved

  /** What a run ends with: its outcome, the files, and the writers that ran, in order. */
  datatype Report = Report(outcome: Outcome, files: Project, steps: seq<Step>)

  datatype Loaded = Loaded(mapping: YamlMapping) | Unusable(reason: Failure)

  /** Reading `metadata.yaml`: a false document stands for the empty mapping. */
  function LoadMetadata(file: MetaFile): (r: Loaded)
    ensures r.Loaded? <==> file.Parsed? || file.EmptyDocument?
    ensures file.Parsed? ==> r == Loaded(file.mapping)
    ensures file.EmptyDocument? ==> r == Loaded(Empty)
  {
    match file
    case NoMetadata => Unusable(MetadataMissing)
    case Malformed => Unusable(MetadataMalformed)
    case EmptyDocument => Loaded(Empty)
    case NotMapping => Unusable(MetadataNotMapping)
    case Parsed(mapping) => Loaded(mapping)
  }

  /** The writers that run for a confirmed configuration, with the scaffold answers after it. */
  function Apply(p: Project, config: Config, lines: seq<string>, year: nat): (r: Report)
    ensures r.outcome.Initialised? || r.outcome.Failed?
    ensures r.outcome.Initialised? ==> r.outcome.config == config && r.files.settings == Some(StoredOf(config))
  {
    match LoadMetadata(p.metadata)
    case Unusable(reason) => Report(Failed(reason), p, [])
    case Loaded(mapping) => AfterMetadata(p.(metadata := Parsed(Updated(mapping, config, year))), config, lines)
  }

  /** The run once the metadata is written: the template next. */
  function AfterMetadata(p: Project, config: Config, lines: seq<string>): (r: Report)
    ensures r.outcome.Initialised? || r.outcome.Failed?
    ensures r.outcome.Initialised? ==> r.outcome.config == config && r.files.settings == Some(StoredOf(config))
  {
    if p.template.None? then Report(Failed(TemplateMissing), p, [MetadataWritten])
    else AfterTemplate(p.(template := Some(Patch(p.template.value, config.title, config.authors))), config, lines)
  }

  /**
   * The run once the template is patched: the scaffold question, the optional cleanup and
   * introduction (a missing contents directory has nothing to clean but cannot take the
   * introduction), then the settings.
   */
  function AfterTemplate(p: Project, config: Config, lines: seq<string>): (r: Report)
    ensures r.outcome.Initialised? || r.outcome.Failed?
    ensures r.outcome.Initialised? ==> r.outcome.config == config && r.files.settings == Some(StoredOf(config))
  {
    match YesNo(lines, true)
    case Eof => Report(Failed(AnswersEnded), p, [MetadataWritten, TemplateWritten])
    case Got(scaffold, _) =>
      if scaffold && p.contents.None? then
        Report(Failed(ContentsMissing), p, [MetadataWritten, TemplateWritten, ExamplesRemoved])
      else
        var scaffolded := if scaffold then p.(contents := Some(Scaffolded(p.contents.value, config.title, config.description))) else p;
        var scaffoldSteps := if scaffold then [ExamplesRemoved, IntroductionWritten] else [];
        Report(Initialised(config, scaffold), scaffolded.(settings := Some(StoredOf(config))),
               [MetadataWritten, TemplateWritten] + scaffoldSteps + [SettingsSaved])
  }

  /** What follows the questions: nothing, or the writers when the settings were confirmed. */
  function Finish(p: Project, resolved: Resolved, year: nat): Report {
    match resolved
    case KeepExisting => Report(KeptExisting, p, [])
    case InputEnded => Report(Failed(AnswersEnded), p, [])
    case Reviewed(config, apply, rest) =>
      if apply then Apply(p, config, rest, year) else Report(Cancelled, p, [])
  }

  /** A whole run on the project with the given answers, date and year. */
  function Initialize(p: Project, lines: seq<string>, today: string, year: nat): Report {
    Finish(p, Session(p.settings, lines, today), year)
  }

  /**
   * No writer runs, and no file changes, unless the settings were reviewed and confirmed at
   * "Apply these settings?"; in particular not when the saved settings are kept or the run is
   * cancelled.
   */
  lemma NoWriteUnlessConfirmed(p: Project, resolved: Resolved, year: nat)
    requires !(resolved.Reviewed? && resolved.apply)
    ensures Finish(p, resolved, year) == Report(
      if resolved.KeepExisting? then KeptExisting
      else if resolved.Reviewed? then Cancelled
      else Failed(AnswersEnded), p, [])
  {
  }

  /** A file changes only through a writer that ran. */
  lemma ChangesNeedSteps(p: Project, resolved: Resolved, year: nat)
    ensures var r := Finish(p, resolved, year);
      && (r.files.metadata != p.metadata ==> MetadataWritten in r.steps)
      && (r.files.template != p.template ==> TemplateWritten in r.steps)
      && (r.files.contents != p.contents ==> IntroductionWritten in r.steps)
      && (r.files.settings != p.settings ==> SettingsSaved in r.steps)
  {
  }

  /**
   * The settings are saved exactly when the run succeeds, and then last: after the metadata,
   * the template and, if chosen, the cleanup and the new introduction.
   */
  lemma SaveComesLast(p: Project, resolved: Resolved, year: nat)
    ensures var r := Finish(p, resolved, year);
      && (SettingsSaved in r.steps <==> r.outcome.Initialised?)
      && (r.outcome.Initialised? ==>
            r.steps == [MetadataWritten, TemplateWritten]
                       + (if r.outcome.scaffolded then [ExamplesRemoved, IntroductionWritten] else [])
                       + [SettingsSaved])
  {
  }

  /**
   * A successful run confirmed the settings it applied and leaves the overlaid metadata, the
   * patched template, the scaffolded contents when chosen, and the saved configuration.
   */
  lemma InitialisedFiles(p: Project, resolved: Resolved, year: nat)
    requires Finish(p, resolved, year).outcome.Initialised?
    ensures var r := Finish(p, resolved, year);
      var config := r.outcome.config;
      && resolved.Reviewed? && resolved.apply && resolved.config == config
      && LoadMetadata(p.metadata).Loaded?
      && r.files.metadata == Parsed(Updated(LoadMetadata(p.metadata).mapping, config, year))
      && p.template.Some?
      && r.files.template == Some(Patch(p.template.value, config.title, config.authors))
      && (r.outcome.scaffolded ==>
            p.contents.Some? && r.files.contents == Some(Scaffolded(p.contents.value, config.title, config.description)))
      && (!r.outcome.scaffolded ==> r.files.contents == p.contents)
      && r.files.settings == Some(StoredOf(config))
  {
  }

  /**
   * Once a run has succeeded, a later run that answers "y" and then "n" to the two opening
   * questions keeps everything as it is.
   */
  lemma SecondRunKeeps(p: Project, lines: seq<string>, today: string, year: nat,
                       rest: seq<string>, today2: string, year2: nat)
    requires Initialize(p, lines, today, year).outcome.Initialised?
    ensures var after := Initialize(p, lines, today, year).files;
      Initialize(after, ["y", "n"] + rest, today2, year2) == Report(KeptExisting, after, [])
  {
    var r := Initialize(p, lines, today, year);
    InitialisedFiles(p, Session(p.settings, lines, today), year);
    KeepWhenNotChanging(StoredOf(r.outcome.config), rest, today2);
  }

  /**
   * The project a successful, scaffolding run leaves behind is a fixed point: running again
   * in the same year, pressing Enter at every question except "n" to "modify the author
   * list?", writes the same files again. Titles and authors are single lines, as answers are.
   */
  lemma RerunReproduces(p: Project, lines: seq<string>, today: string, year: nat, today2: string)
    requires Initialize(p, lines, today, year).outcome.Initialised?
    requires Initialize(p, lines, today, year).outcome.scaffolded
    requires var config := Initialize(p, lines, today, year).outcome.config;
      NoNewline(config.title) && forall i :: 0 <= i < |config.authors| ==> NoNewline(config.authors[i])
    ensures var r := Initialize(p, lines, today, year);
      Initialize(r.files, ["", "", "", "n", "", "", "", "", "", ""], today2, year) == r
  {
    var resolved := Session(p.settings, lines, today);
    var r := Finish(p, resolved, year);
    assert resolved.Reviewed? && resolved.apply;
    var config := resolved.config;
    assert r == Apply(p, config, resolved.rest, year);
    assert ["", "", "", "n", "", "", "", "", "", ""] == ["", "", "", "n", "", "", "", "", ""] + [""];
    SavedSettingsReproduced(config, [""], today2);
    assert Session(r.files.settings, ["", "", "", "n", "", "", "", "", "", ""], today2) == Reviewed(config, true, [""]);
    ApplyReproduces(p, config, resolved.rest, year);
  }

  /**
   * The writers are idempotent: applying the same configuration again, with Enter at the
   * scaffold question, to the files a scaffolding application left behind changes nothing.
   */
  lemma ApplyReproduces(p: Project, config: Config, lines: seq<string>, year: nat)
    requires Apply(p, config, lines, year).outcome == Initialised(config, true)
    requires NoNewline(config.title) && forall i :: 0 <= i < |config.authors| ==> NoNewline(config.authors[i])
    ensures var r := Apply(p, config, lines, year);
      Apply(r.files, config, [""], year) == r
  {
    var r := Apply(p, config, lines, year);
    var mapping := LoadMetadata(p.metadata).mapping;
    UpdateIdempotent(mapping, config, year);
    assert LoadMetadata(r.files.metadata) == Loaded(Updated(mapping, config, year));
    assert Apply(r.files, config, [""], year) == AfterMetadata(r.files, config, [""]);
    PatchTwice(p.template.value, config.title, config.authors, config.title, config.authors);
    assert AfterMetadata(r.files, config, [""]) == AfterTemplate(r.files, config, [""]);
    ScaffoldAgain(p.contents.value, config.title, config.description, config.title, config.description);
    assert [""] == [""] + [];
    BlankIsYes([]);
  }

  /**
   * The project directory, changed in place by the run. `Files` reads it as a value; `steps`
   * lists the writers that have run.
   */
  class Workspace {
    var settings: Option<Stored>
    var metadata: MetaFile
    var template: Option<string>
    var contents: Option<map<string, string>>
    var steps: seq<Step>

    function Files(): Project
      reads this
    {
      Project(settings, metadata, template, contents)
    }

    constructor (p: Project)
      ensures Files() == p && steps == []
    {
      settings := p.settings;
      metadata := p.metadata;
      template := p.template;
      contents := p.contents;
      steps := [];
    }

    /** `main`: resolve the settings, then apply them if confirmed. */
    method Run(lines: seq<string>, today: string, year: nat) returns (outcome: Outcome)
      requires steps == []
      modifies this
      ensures Report(outcome, Files(), steps) == Initialize(old(Files()), lines, today, year)
    {
      var resolved := Resolve(settings, lines, today);
      assert Initialize(old(Files()), lines, today, year) == Finish(Files(), resolved, year);
      match resolved
      case KeepExisting =>
        outcome := KeptExisting;
      case InputEnded =>
        outcome := Failed(AnswersEnded);
      case Reviewed(config, apply, rest) =>
        if apply {
          outcome := ApplySettings(config, rest, year);
        } else {
          outcome := Cancelled;
        }
    }

    /** The writers, in order, for a confirmed configuration; the first that fails ends the run. */
    method ApplySettings(config: Config, lines: seq<string>, year: nat) returns (outcome: Outcome)
      requires steps == []
      modifies this
      ensures Report(outcome, Files(), steps) == Apply(old(Files()), config, lines, year)
    {
      var ok := UpdateMetadataFile(config, year);
      if !ok {
        return Failed(LoadMetadata(metadata).reason);
      }
      outcome := ApplyFromTemplate(config, lines);
    }

    /** The writers after the metadata. */
    method ApplyFromTemplate(config: Config, lines: seq<string>) returns (outcome: Outcome)
      requires steps == [MetadataWritten]
      modifies this
      ensures Report(outcome, Files(), steps) == AfterMetadata(old(Files()), config, lines)
    {
      var ok := UpdateSampleBook(config);
      if !ok {
        return Failed(TemplateMissing);
      }
      outcome := ApplyFromScaffold(config, lines);
    }

    /** The scaffold question and the writers after the template. */
    method ApplyFromScaffold(config: Config, lines: seq<string>) returns (outcome: Outcome)
      requires steps == [MetadataWritten, TemplateWritten]
      modifies this
      ensures Report(outcome, Files(), steps) == AfterTemplate(old(Files()), config, lines)
    {
      var answer := AskYesNo(lines, true);
      if answer.Eof? {
        return Failed(AnswersEnded);
      }
      ghost var before := Files();
      if answer.value {
        CleanExamples();
        var ok := CreateFirstChapter(config);
        if !ok {
          return Failed(ContentsMissing);
        }
        assert contents == Some(Scaffolded(before.contents.value, config.title, config.description));
        assert steps == [MetadataWritten, TemplateWritten] + [ExamplesRemoved, IntroductionWritten];
      }
      SaveConfig(config);
      outcome := Initialised(config, answer.value);
    }

    /**
     * `update_metadata`: overlay the five owned keys on the loaded mapping and write it back;
     * a missing or malformed file, or a true document without `update`, ends the run with
     * nothing written.
     */
    method UpdateMetadataFile(config: Config, year: nat) returns (ok: bool)
      modifies this
      ensures ok <==> LoadMetadata(old(metadata)).Loaded?
      ensures ok ==> Files() == old(Files()).(metadata := Parsed(Updated(LoadMetadata(old(metadata)).mapping, config, year)))
      ensures ok ==> steps == old(steps) + [MetadataWritten]
      ensures !ok ==> Files() == old(Files()) && steps == old(steps)
    {
      var loaded := LoadMetadata(metadata);
      if loaded.Unusable? {
        return false;
      }
      var dict := new Dict(loaded.mapping);
      UpdateMetadata(dict, config, year);
      metadata := Parsed(dict.Contents());
      steps := steps + [MetadataWritten];
      ok := true;
    }

    /** `update_sample_book`: patch the title block of the template; a missing template ends the run. */
    method UpdateSampleBook(config: Config) returns (ok: bool)
      modifies this
      ensures ok <==> old(template).Some?
      ensures ok ==> Files() == old(Files()).(template := Some(Patch(old(template).value, config.title, config.authors)))
      ensures ok ==> steps == old(steps) + [TemplateWritten]
      ensures !ok ==> Files() == old(Files()) && steps == old(steps)
    {
      if template.None? {
        return false;
      }
      template := Some(Patch(template.value, config.title, config.authors));
      steps := steps + [TemplateWritten];
      ok := true;
    }

    /** `clean_contents`: remove the placeholder chapters; a missing directory has none to remove. */
    method CleanExamples()
      modifies this
      ensures Files() == old(Files()).(contents := if old(contents).Some? then Some(Cleaned(old(contents).value)) else None)
      ensures steps == old(steps) + [ExamplesRemoved]
    {
      if contents.Some? {
        var kept := CleanContents(contents.value);
        contents := Some(kept);
      }
      steps := steps + [ExamplesRemoved];
    }

    /** `create_first_chapter`: write the introduction; a missing directory ends the run. */
    method CreateFirstChapter(config: Config) returns (ok: bool)
      modifies this
      ensures ok <==> old(contents).Some?
      ensures ok ==> Files() == old(Files()).(contents := Some(old(contents).value[IntroName := ChapterText(config.title, config.description)]))
      ensures ok ==> steps == old(steps) + [IntroductionWritten]
      ensures !ok ==> Files() == old(Files()) && steps == old(steps)
    {
      if contents.None? {
        return false;
      }
      contents := Some(contents.value[IntroName := ChapterText(config.title, config.description)]);
      steps := steps + [IntroductionWritten];
      ok := true;
    }

    /** `save_config`: write the settings file. */
    method SaveConfig(config: Config)
      modifies this
      ensures Files() == old(Files()).(settings := Some(StoredOf(config)))
      ensures steps == old(steps) + [SettingsSaved]
    {
      settings := Some(StoredOf(config));
      steps := steps + [SettingsSaved];
    }
  }
}
