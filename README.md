# Book project initializer — a Dafny model

`init.py` is an interactive wizard that sets up a book project built with Pandoc and Typst.
It asks for a title, authors, a publisher, a publication date, a description and a license.
It can take the defaults from the settings saved by an earlier run (`.book-config.json`).
When the settings are confirmed, it writes them into four places, in this order:

1. It overlays five keys on `metadata.yaml`.
2. It patches the sample title-and-authors block in `output/sample-book.typ`.
3. If the user agrees, it deletes the example chapters in `contents/` and writes a new `001.introduction.md`.
4. It saves the settings.

This project models that core and proves what it promises.

- **Inputs.** The console is the sequence of answer lines still to be typed. Every question reads lines from its front. Running out of lines is end of input, which the model reports as `Eof`.
- **Files.** The files are values:
  - the settings record;
  - the parsed metadata, as an insertion-ordered dictionary;
  - the template text;
  - the `contents/` directory, as a map from file name to text.
- **Workspace.** The project directory is the class `Init.Workspace`, whose fields the run updates in place. Its `steps` field records which writers ran, in order.
- **Functions and methods.** Each imperative part of the source is a method proved equal to a pure function. These parts are the yes/no retry loop, the author loop, `dict.update`, the cleanup loop, the field-by-field assignments of `main`, and `main` itself. The properties are then proved about those functions.

Modules, one per file:

| module | models |
|---|---|
| `Base` | `Option` |
| `Text` | `strip`, ASCII `lower`, `join`, `str(int)`, `str.replace` |
| `Prompt` | `get_input`, `get_boolean_input` |
| `Settings` | the configuration, the saved record, the license maps |
| `Resolver` | the questions of `main`: the saved-settings gate, the fields, the author loop |
| `Metadata` | `update_metadata` on an ordered dictionary |
| `Template` | `update_sample_book` |
| `Scaffold` | `clean_contents`, `create_first_chapter` |
| `Init` | `main` from the confirmation on, and the whole run |

## Model

| member | source | states |
|---|---|---|
| Text.Lower | init.py:44 | Models `.lower()` on the answer, letter for letter, keeping its length. `Prompt.ParseYesNoAccepts` states how the lower-cased answer is read. |
| Text.Join | init.py:70 | Models `', '.join` of the rights line (and `'",\n  "'.join` at init.py:89). `Metadata.UpdatedValues` and `Template.OldNotInNew` state what the joined text gives. |
| Text.Decimal | init.py:70 | Models `str(year)` in the rights line: non-empty decimal digits, with a leading zero only for zero. `Text.DecimalRoundTrip` states that it reads back as the same year. |
| Text.Strip | init.py:38 | Models `str.strip` on whitespace. `Text.StripIdempotent` states that stripping twice is stripping once. |
| Text.ReplaceAll | init.py:99 | Models `str.replace`: every non-overlapping occurrence, left to right, is replaced. `Text.ReplaceFirst` and `Text.ReplaceAbsent` state its properties. |
| Text.ReplaceFirst | init.py:99 | When the pattern first occurs right after a prefix, the replacement keeps the prefix as it is, puts the replacement text in place of that occurrence, and replaces in the rest of the text in turn. |
| Prompt.GetInput | init.py:36-40 | A non-blank trimmed answer is returned as it is. A blank answer gives the default, and with no default (empty) it gives the empty answer. |
| Prompt.Ask | init.py:36-40 | A question reads exactly one line. It reaches end of input only when no line is left. |
| Prompt.ParseYesNo | init.py:44-50 | Models the reading of one yes/no answer. `Prompt.ParseYesNoAccepts` states it case by case. |
| Prompt.ParseYesNoAccepts | init.py:44-50 | After stripping and ASCII lower-casing, each answer is handled as follows: a blank answer yields the default; "y" or "yes" yields true; "n" or "no" yields false; every other answer is no answer. Each case is an if-and-only-if. |
| Prompt.FirstAnswer | init.py:43-51 | The retry loop reads at least one line when it answers, and leaves a suffix of the input. |
| Prompt.FirstAnswerDecides | init.py:43-51 | The first line that parses decides the answer, and every line before it was rejected. End of input comes only when every line was rejected. |
| Prompt.YesNo | init.py:42-51 | Models `get_boolean_input` as the first answer that `ParseYesNo` accepts. `Prompt.FirstAnswerDecides` and `Prompt.AskYesNo` state its properties. |
| Prompt.AskYesNo | init.py:42-51 | The `while` loop returns exactly what `YesNo` specifies. |
| Settings.Code | init.py:203-207 | Models the license codes written into the settings. `Settings.DefaultChoiceRoundTrip` states that each code selects its license again. |
| Settings.ChoiceOfCode | init.py:201 | Models the reverse lookup from a saved code to a menu entry, "1" for an unknown code. `Settings.DefaultChoice` and `Settings.DefaultChoiceRoundTrip` state its properties. |
| Settings.LicenseOfChoice | init.py:203-207 | The license mapping is total: "2" gives CC-BY-SA, "3" gives ARR, and every other choice gives CC-BY-NC-SA. Each case is an if-and-only-if. |
| Settings.DefaultChoice | init.py:199-201 | The default offered at the license question is always one of "1", "2" and "3". |
| Settings.DefaultChoiceRoundTrip | init.py:199-207 | The code saved for a license offers the menu entry that selects the same license again. |
| Settings.Truthy | init.py:153 | Models the truth test of the loaded settings: a record with at least one key. `Settings.StoredOf` and `Resolver.Session` state where it decides. |
| Settings.StoredOf | init.py:136-138 | A saved configuration is never the empty record, so the next run asks the gate questions. |
| Resolver.AuthorLoop | init.py:176-183 | Models the author loop that follows the first author. `Resolver.MoreAuthors`, `Resolver.CollectedAuthors` and `Resolver.AuthorsRunOut` state its properties. |
| Resolver.MoreAuthors | init.py:177-183 | Once one author is in, the loop appends the trimmed non-blank answers in order up to the first blank answer, and stops there. If input ends first, every answer was non-blank. |
| Resolver.FirstAuthor | init.py:178-179 | The first author is never blank: a blank first answer gives "Your Name". |
| Resolver.CollectedAuthors | init.py:176-184 | A finished author loop yields a non-empty list in entry order. Its first element is the first answer, or "Your Name" if that answer was blank. The rest are the following trimmed answers, none of them blank, and a blank answer ends the list. |
| Resolver.AuthorsRunOut | init.py:177-183 | The author loop reaches end of input only when every answer after the first was non-blank. |
| Resolver.AuthorsNonEmpty | init.py:180-181 | The author loop can only stop with at least one author. |
| Resolver.CollectAuthors | init.py:169-184 | The `while` loop that appends authors returns exactly what `AuthorLoop` specifies. |
| Resolver.AuthorList | init.py:169-184 | The author list that results is never empty. |
| Resolver.KeepStoredAuthors | init.py:170-174 | Declining to modify a non-empty saved author list keeps it verbatim. |
| Resolver.Questions | init.py:165-213 | The field questions always yield non-empty authors. A blank title is possible only when the saved title is itself blank. |
| Resolver.Details | init.py:186-214 | The remaining questions keep the title and authors already chosen, and never decide to keep the saved settings. |
| Resolver.Session | init.py:152-214 | The run keeps the saved settings exactly when they are non-empty, the first gate question is answered yes and the second is answered no. Reviewed settings always have authors. A blank title can only come from a saved blank title. |
| Resolver.Resolve | init.py:152-213 | The question sequence of `main` returns exactly what `Session` specifies. |
| Resolver.AskQuestions | init.py:165-213 | Assigning the fields one by one gives exactly `Questions`. |
| Resolver.AskDetails | init.py:186-213 | Assigning the remaining fields one by one gives exactly `Details`. |
| Resolver.BlankIsYes | init.py:42-46 | A blank answer to a yes/no question whose default is yes means yes, and consumes one line. |
| Resolver.AnswerNo | init.py:49-50 | Answering "n" means no. |
| Resolver.AnswerYes | init.py:47-48 | Answering "y" means yes. |
| Resolver.BlankTakesDefault | init.py:37-39 | A blank answer to a question takes its default. |
| Resolver.BlankDetails | init.py:187-214 | Enter at the five remaining questions gives the saved publisher, date and description, or else "Self Published", today and "A comprehensive guide to...". It gives the saved license, or else CC-BY-NC-SA, and confirms. |
| Resolver.FirstRunDefaults | init.py:164-214 | Without saved settings, Enter at all eight questions gives "My New Book", the author "Your Name", "Self Published", today, "A comprehensive guide to..." and CC-BY-NC-SA, and confirms. |
| Resolver.KeepWhenNotChanging | init.py:153-160 | With saved settings, "y" and then "n" at the gate keeps them and asks nothing more. |
| Resolver.DeclinedDefaultsStillApply | init.py:153-166 | Declining to use the saved settings as defaults still uses them as the defaults of every question. |
| Resolver.ChangeSaved | init.py:153-158 | "y" at both gate questions leads to the field questions with the saved defaults. |
| Resolver.AcceptSaved | init.py:153-158 | Enter at both gate questions leads to the field questions with the saved defaults. |
| Resolver.QuestionsOnSaved | init.py:165-214 | On saved settings, Enter everywhere except "n" at "modify the author list?" reproduces the saved configuration and confirms it. |
| Resolver.SavedSettingsReproduced | init.py:152-214 | From the gate on, the same answers reproduce the saved configuration. |
| Resolver.BlankQuestions | init.py:165-214 | On saved settings, Enter at every field question replaces the saved authors with "Your Name" and keeps every other field. |
| Resolver.BlankAuthors | init.py:171-183 | Enter at "modify the author list?" and at the first author name leaves only "Your Name". |
| Resolver.EnterEverywhereResetsAuthors | init.py:152-214 | On saved settings, Enter at every question of the whole run resets the authors to "Your Name". |
| Metadata.Overlay | init.py:65-71 | Models `dict.update` on an insertion-ordered dictionary, and keeps it well formed. `Metadata.OverlayValues`, `Metadata.OverlayKeys` and `Metadata.OverlayIdempotent` state its properties. |
| Metadata.Rights | init.py:70 | Models the rights line "© <year> <authors joined by ', '>". `Metadata.UpdatedValues` states where it goes. |
| Metadata.Owned | init.py:66-71 | Models the five pairs that `update_metadata` writes, in order. `Metadata.UpdatedValues` and `Metadata.UpdatedKeys` state what they leave. |
| Metadata.Updated | init.py:65-71 | Models the whole update of the loaded mapping, and keeps it well formed. `Metadata.UpdatedValues`, `Metadata.UpdatedForeign`, `Metadata.UpdatedKeys` and `Metadata.UpdateIdempotent` state its properties. |
| Metadata.Put | init.py:65-71 | Storing one key keeps the position of an existing key and appends a new key, and the dictionary stays well formed. |
| Metadata.OverlayValues | init.py:65-71 | After `dict.update`, the values are the old values overridden by the pairs, a later pair winning. |
| Metadata.OverlayKeys | init.py:65-71 | After `dict.update`, the key order is the old order followed by the new keys in order of first arrival. |
| Metadata.OverlayIdempotent | init.py:65-71 | Updating twice with the same pairs is the same as updating once. |
| Metadata.UpdatedValues | init.py:65-71 | After the update, title, author, publication_date, publisher and rights hold the configuration's title, authors, date and publisher and "© <year> <authors joined by ', '>". |
| Metadata.UpdatedForeign | init.py:65-73 | The update adds the five owned keys and no others. Every other key keeps its value. |
| Metadata.UpdatedKeys | init.py:65-78 | Existing keys keep their order, and the owned keys that were missing follow in the order in which they are written. |
| Metadata.UpdateIdempotent | init.py:65-71 | Running `update_metadata` twice with the same configuration and year is the same as running it once. |
| Metadata.Dict.Update | init.py:65 | The in-place `dict.update` loop leaves exactly the overlay of the pairs. |
| Metadata.UpdateMetadata | init.py:65-71 | The in-place update of the loaded dictionary leaves exactly `Updated`. |
| Text.DecimalRoundTrip | init.py:70 | The year as written in the rights line reads back as the same number. |
| Text.StripIdempotent | init.py:38 | Stripping an answer twice is stripping it once. |
| Template.NewBlock | init.py:91-97 | Models the new title-and-authors block. `Template.OldNotInNew` states that it cannot contain the sample block. |
| Template.Patch | init.py:89-99 | Models the replacement of every sample block. `Template.PatchSample`, `Template.PatchInPlace`, `Template.PatchWithoutBlock` and `Template.PatchTwice` state its properties. |
| Template.ReplaceLeavesNone | init.py:99 | A replacement leaves no occurrence of the pattern when the replacement text cannot recreate one. |
| Template.OldNotInNew | init.py:91-97 | A new block built from a title and authors without line breaks does not contain the sample block. |
| Template.PatchSample | init.py:89-99 | Patching the sample block itself yields exactly the new block. `Template.PatchInPlace` covers the block inside a larger text. |
| Template.PatchInPlace | init.py:89-99 | The first sample block in a template is replaced by the new block where it stands: the text before it is kept as it is, and the text after it is patched in turn. |
| Template.PatchWithoutBlock | init.py:99 | A template without the sample block is left as it is. |
| Template.PatchTwice | init.py:83-102 | After a patch, with a title and authors without line breaks, no sample block remains. A second patch with any title and authors is then a no-op. |
| Scaffold.IsPlaceholder | init.py:107-108 | Models the glob `*.md` and the test for the "000." and "001." prefixes. `Scaffold.Cleaned` and `Scaffold.IntroIsPlaceholder` state what it selects. |
| Scaffold.Cleaned | init.py:104-109 | The cleanup removes exactly the `.md` files whose names start with "000." or "001.", and leaves every other file and its text untouched. |
| Scaffold.CleanContents | init.py:104-109 | The loop over the markdown files deletes exactly what `Cleaned` removes. |
| Scaffold.Scaffolded | init.py:104-134 | After cleanup and introduction, `001.introduction.md` holds the chapter text, and every other file is a kept, non-placeholder file with its text. |
| Scaffold.IntroIsPlaceholder | init.py:107-133 | The generated `001.introduction.md` is itself in the set a later cleanup deletes. |
| Scaffold.ScaffoldAgain | init.py:104-134 | Scaffolding again replaces the earlier introduction and keeps everything else. |
| Scaffold.ChapterText | init.py:111-131 | Models the text of the introduction built from the title and the description. `Scaffold.ChapterTextInjective` states that both can be read back from it. |
| Scaffold.ChapterTextInjective | init.py:111-131 | The introduction determines the title (a single line) and the description it was built from. |
| Init.LoadMetadata | init.py:56-62 | The metadata loads exactly when it parses to a mapping or to a false document, which counts as the empty mapping. A missing or malformed file, or a true document without `update`, stops the run. |
| Init.Apply | init.py:214-221 | The writers end either initialised or failed. A success saved exactly the configuration it applied. |
| Init.AfterMetadata | init.py:217-221 | The writers after the metadata end either initialised or failed. |
| Init.AfterTemplate | init.py:218-221 | The scaffold question and the writers after the template end either initialised or failed. |
| Init.NoWriteUnlessConfirmed | init.py:153-232 | Keeping the saved settings, declining "Apply these settings?" and running out of answers run no writer and change no file. |
| Init.ChangesNeedSteps | init.py:214-221 | No file changes unless the writer of that file ran. |
| Init.SaveComesLast | init.py:216-221 | The settings are saved exactly when the run succeeds. They are saved last, after the metadata, the template and, if chosen, the cleanup and the introduction. |
| Init.InitialisedFiles | init.py:214-221 | A successful run confirmed the settings it applied. It leaves the overlaid metadata, the patched template, the scaffolded contents when chosen and the saved configuration. |
| Init.SecondRunKeeps | init.py:152-160 | After a successful run, answering "y" and then "n" at the gate keeps every file as it is. |
| Init.ApplyReproduces | init.py:214-221 | Applying the same configuration again to the files a scaffolding run left, with Enter at the scaffold question, changes nothing. This is proved for a title and authors without line breaks. |
| Init.RerunReproduces | init.py:147-221 | After a successful scaffolding run, a second run in the same year writes the same files again. This holds when the second run answers Enter everywhere except "n" at "modify the author list?". |
| Init.Finish | init.py:214-232 | Models `main` from the resolved settings on: no writer runs unless the settings were confirmed. `Init.NoWriteUnlessConfirmed` states it. |
| Init.Initialize | init.py:147-232 | Models the whole run of `main`. `Init.SaveComesLast`, `Init.InitialisedFiles`, `Init.SecondRunKeeps` and `Init.RerunReproduces` state its properties. |
| Init.Workspace.Run | init.py:147-232 | Running `main` in place on the workspace gives exactly the outcome, files and writer trace of `Initialize`. |
| Init.Workspace.ApplySettings | init.py:214-221 | The writers run in place in the order of `main`, and give exactly `Apply`. |
| Init.Workspace.ApplyFromTemplate | init.py:217-221 | The writers from the template on give exactly `AfterMetadata`. |
| Init.Workspace.ApplyFromScaffold | init.py:218-221 | The scaffold question and the writers after it give exactly `AfterTemplate`. |
| Init.Workspace.UpdateMetadataFile | init.py:53-81 | On a mapping or a false document, the metadata is replaced by its update and nothing else changes. A missing or malformed file, or a true document without `update`, changes nothing. |
| Init.Workspace.UpdateSampleBook | init.py:83-102 | The template is replaced by its patch. A missing template changes nothing. |
| Init.Workspace.CleanExamples | init.py:104-109 | The placeholders are removed from the directory. A missing directory has nothing to remove. |
| Init.Workspace.CreateFirstChapter | init.py:111-134 | `001.introduction.md` is written into the directory. A missing directory changes nothing and fails. |
| Init.Workspace.SaveConfig | init.py:136-138 | The settings file holds the configuration, and nothing else changes. |

## Left out

- The console output is not modelled: the coloured messages, the review listing and the "Next steps" text (init.py:26-34, 148-149, 155-157, 172, 195-198, 210-212, 222-227). They change nothing.
- The PyYAML bootstrap and its `pip install` (init.py:10-19) are not modelled. They set up the environment.
- The Python version check (init.py:22-24) is not modelled, for the same reason.
- The YAML parser and dumper are not modelled. The metadata file arrives already parsed: missing, malformed, a false document, a true document without `update`, or a mapping. The values the run does not write are opaque `Foreign` nodes.
- Init.LoadMetadata: a non-empty YAML set (`!!set`) is not modelled. `yaml.safe_load` gives a Python set, whose `update` adds the five key names and drops their values; the source writes that set back and goes on. The model has no such document, and its `NotMapping` stands only for true documents without `update` (a list, a string, a number), on which the source fails.
- Init.Workspace.UpdateMetadataFile: for the same reason it does not cover a non-empty YAML set, which the source updates by key names only and writes back.
- The template and the introduction are text as text-mode `open` reads and writes it (init.py:85, 101, 133): line endings are already translated to `\n` and the encoding already decoded. A template with CRLF line endings is therefore the same text as with LF endings, and is not modelled separately.
- The written metadata file is kept as the updated mapping itself. This assumes that dumping it with `yaml.dump(sort_keys=False)` (init.py:76-78) and loading it again with `yaml.safe_load` gives back the same mapping, keys in the same order. Init.ApplyReproduces and Init.RerunReproduces rely on this.
- The JSON reader and writer are not modelled. The settings file arrives as a record of the six known keys, each possibly missing. Extra keys in a saved file are not modelled, nor values of other JSON types: in the source they survive into a new settings file when the saved settings are used as defaults.
- The clock is not modelled. `datetime.now()` enters as two parameters: `today`, the default date string, and `year`, the year of the rights line.
- Input/output failures other than a missing file are not modelled: permissions, disk errors, a `contents` path that is not a directory, or a `*.md` entry that is a directory. A failure ends the run with a `Failed` outcome. The files already written stay written, which is what `sys.exit(1)` in the handler leaves behind.
- A missing default (`None`) in `get_input` is modelled as the empty string, which Python treats the same way.
- Lower-casing covers ASCII letters only. It is only used to compare against "y", "yes", "n" and "no", where other letters cannot matter.
- Template.PatchTwice: proved only for a title and authors without line breaks, as typed answers are. A title or author with a line break, from a hand-edited settings file, could rebuild the sample block, and this case is not covered.
- Init.ApplyReproduces: the same single-line precondition as for PatchTwice.
- Init.RerunReproduces: the same single-line precondition as for PatchTwice.
- Init.RerunReproduces: it covers only the second run in the same year, because the rights line carries the year.

## Behaviour of the code

Some behaviour of the code is worth knowing:

- The seeded introduction is named `001.introduction.md` (init.py:133), and the cleanup deletes every `.md` file whose name starts with "001." (init.py:107-108). A later run that scaffolds again therefore deletes it (`Scaffold.IntroIsPlaceholder`).
- The title question falls back to its default on a blank answer, unless that default is itself empty (init.py:36-40, 165-166). Its default is "My New Book" or the saved title, so a blank title comes only from a saved blank title (`Resolver.Questions`).
- The question "modify the author list?" defaults to yes (init.py:173). Pressing Enter there discards a saved author list, and Enter at the first author name then gives "Your Name" (`Resolver.EnterEverywhereResetsAuthors`).
- Answering no to "use the saved settings as defaults?" (init.py:153) does not clear the defaults: every later question still offers the saved value (init.py:162-166, `Resolver.DeclinedDefaultsStillApply`).
- A missing `contents/` directory does not stop `clean_contents`, because the glob finds nothing (init.py:106-107). The run then fails when `create_first_chapter` writes into it (init.py:133-134). The model records the cleanup step before the `ContentsMissing` failure.
- A non-empty YAML set in `metadata.yaml` is not rejected: `update` adds the five key names to it without their values, and it is written back (init.py:59, 65-71, 78). This case is outside the model (see "## Left out").
