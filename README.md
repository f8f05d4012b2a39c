# DocsGeneratorCommand, modelled in Dafny

The micrometer docs generator is started through `DocsGeneratorCommand`. The
command holds:

- the project root, an inclusion pattern and an output directory;
- for each document type (metrics, spans, observation conventions), a
  template location and an output file name;
- a template format (`adoc` or `md`) and three switches saying which types to
  generate.

Its `run` works as follows:

1. It rewrites every `/` of the pattern into the platform separator.
2. Under the format `md` only, it moves the templates and output names from
   the asciidoc family to markdown.
3. It then takes the metrics, spans and conventions types in that order,
   skipping any type whose switch is off. For each type it resolves the
   output name against the output directory, prepares the output's parent
   directory, and invokes that type's generator. The output of a disabled
   type is never resolved, and the first exception ends the run.

The project has four modules:

- `Wrappers` (`wrappers.dfy`): `Option` and `Result`.
- `JavaStrings` (`java_strings.dfy`): `String.replace(CharSequence,
  CharSequence)` and `String.indexOf`. They are written over a fixed string
  and a moving index, as the JDK scans. The lemmas cover:
  - the indexOf-driven first step of the scan;
  - strings without an occurrence;
  - replacing a target by itself;
  - one-character replacements;
  - rewriting a string piece by piece when every cut falls after a character
    the target does not contain.
- `UnixPaths` (`unix_paths.dfy`): what the command uses of `java.nio.file` on
  a Unix file system:
  - `Paths.get` normalisation (runs of separators collapsed, trailing
    separator dropped, the list of names kept);
  - `isAbsolute`, `resolve` and `getParent`;
  - the chain of ancestors that `Files.createDirectories` walks.
- `DocsGenerator` (`docs_generator_command.dfy`), in two layers:
  - Pure specification functions: the settings after the format switch
    (`MarkdownTemplate`, `MarkdownOutput`, `FormatUpdated`,
    `EffectiveSettings`), output resolution (`ResolveOutputPath`,
    `CreateDirectories`, `PrepareOutputPath`), one generator call
    (`GenerateDoc`), the jobs `run` works through (`Plan`) and a whole run
    (`Execute`, `ExecuteNext`, `RunCommand`).
  - The class `DocsGeneratorCommand`, whose fields are the command's fields.
    Its methods `Run`, `UpdateFormat`, `GenerateMetricsDoc` and so on
    reassign those fields in place. Each method is proved against the
    specification functions.

  Each generator invocation is recorded in the trace field as an `Event`
  carrying what the generator's constructor receives: kind, project root,
  pattern, template and resolved output. The document it writes becomes a
  regular file of the modelled `FileSystem`. That value holds the existing
  directories, the existing files and the paths where a directory cannot be
  created. A file system is well formed when the parent of every directory
  and file is a directory and no path is both. `Files.createDirectories`
  creates the missing directories from the top down and keeps the ones it
  made when a deeper one fails.

## Model

| member | source | states |
|---|---|---|
| JavaStrings.IndexOfFrom | micrometer-docs-generator/src/main/java/io/micrometer/docs/DocsGeneratorCommand.java:158-164 | the index `replace` resumes its scan at: the leftmost occurrence at or after `from`, with no occurrence between; None exactly when there is no occurrence from `from` on |
| JavaStrings.IndexOf | micrometer-docs-generator/src/main/java/io/micrometer/docs/DocsGeneratorCommand.java:158-164 | the leftmost occurrence; None exactly when the target does not occur |
| JavaStrings.MatchesAtSlice | micrometer-docs-generator/src/main/java/io/micrometer/docs/DocsGeneratorCommand.java:158-164 | the character-by-character comparison of `startsWith` holds exactly when the slice of the string at `k` equals the target |
| JavaStrings.ReplaceAll | micrometer-docs-generator/src/main/java/io/micrometer/docs/DocsGeneratorCommand.java:135 | `String.replace`: with a non-empty target, the result is no longer than the input when the replacement is no longer than the target, and no shorter when it is no shorter; an empty target inserts the replacement at least once |
| JavaStrings.ReplaceFromLength | micrometer-docs-generator/src/main/java/io/micrometer/docs/DocsGeneratorCommand.java:158-164 | the same length bounds for the scan from any index |
| JavaStrings.ReplaceAllAtFirstOccurrence | micrometer-docs-generator/src/main/java/io/micrometer/docs/DocsGeneratorCommand.java:158-164 | `replace` copies everything before the leftmost occurrence, emits the replacement for it and continues right after it (non-overlapping, left to right) |
| JavaStrings.ReplaceAllWithoutOccurrence | micrometer-docs-generator/src/main/java/io/micrometer/docs/DocsGeneratorCommand.java:158-164 | a string in which a non-empty target does not occur is returned unchanged |
| JavaStrings.ReplaceAllWithoutChar | micrometer-docs-generator/src/main/java/io/micrometer/docs/DocsGeneratorCommand.java:158-164 | a string that lacks some character of the target is returned unchanged |
| JavaStrings.ReplaceAllBySelf | micrometer-docs-generator/src/main/java/io/micrometer/docs/DocsGeneratorCommand.java:135 | replacing any target by itself returns the string unchanged, the empty target included |
| JavaStrings.ReplaceAllChar | micrometer-docs-generator/src/main/java/io/micrometer/docs/DocsGeneratorCommand.java:135 | replacing one character by one character keeps the length and turns exactly the occurrences of `c` into `d`, position by position |
| JavaStrings.ReplaceFromShift | micrometer-docs-generator/src/main/java/io/micrometer/docs/DocsGeneratorCommand.java:158-164 | the scan of a tail of a string equals the scan of that tail on its own: matching only looks forward |
| JavaStrings.ReplaceFromPrefix | micrometer-docs-generator/src/main/java/io/micrometer/docs/DocsGeneratorCommand.java:158-164 | when a prefix ends in a character the target does not contain, scanning the whole is scanning the prefix alone and then the rest |
| JavaStrings.ReplaceAllConcat | micrometer-docs-generator/src/main/java/io/micrometer/docs/DocsGeneratorCommand.java:158-164 | `(p + q).replace(t, r) == p.replace(t, r) + q.replace(t, r)` when `p` ends in a character `t` does not contain |
| JavaStrings.ReplaceAllPieces | micrometer-docs-generator/src/main/java/io/micrometer/docs/DocsGeneratorCommand.java:158-160 | the same for four pieces, each cut after a character the target does not contain |
| UnixPaths.Normalize | micrometer-docs-generator/src/main/java/io/micrometer/docs/DocsGeneratorCommand.java:162-164 | `Paths.get` yields a normalised path with the same list of names (the non-empty runs between separators), keeps absoluteness, and is the identity on normalised input |
| UnixPaths.Resolve | micrometer-docs-generator/src/main/java/io/micrometer/docs/DocsGeneratorCommand.java:204 | an absolute child is returned as is, an empty child gives the base; otherwise the result starts with the base, ends with the child and is absolute exactly when the base is |
| UnixPaths.ResolveSegments | micrometer-docs-generator/src/main/java/io/micrometer/docs/DocsGeneratorCommand.java:204 | resolving a relative child appends the child's names to the base's names |
| UnixPaths.ResolveNormalized | micrometer-docs-generator/src/main/java/io/micrometer/docs/DocsGeneratorCommand.java:204 | resolving a normalised path against a normalised directory gives a normalised path |
| UnixPaths.Parent | micrometer-docs-generator/src/main/java/io/micrometer/docs/DocsGeneratorCommand.java:191 | `getParent` is the part before the last separator, or "/" when that separator is the first character; null exactly for the root and for a path without separator |
| UnixPaths.ParentNormalized | micrometer-docs-generator/src/main/java/io/micrometer/docs/DocsGeneratorCommand.java:191 | the parent of a normalised path is normalised |
| UnixPaths.ResolveParent | micrometer-docs-generator/src/main/java/io/micrometer/docs/DocsGeneratorCommand.java:191 | a single relative name resolved against a non-empty directory has that directory as parent |
| UnixPaths.ParentThenResolve | micrometer-docs-generator/src/main/java/io/micrometer/docs/DocsGeneratorCommand.java:191 | a normalised path with a parent is its parent resolved with its last name |
| UnixPaths.Ancestors | micrometer-docs-generator/src/main/java/io/micrometer/docs/DocsGeneratorCommand.java:191 | the path, each of its ancestors and nothing else: the set holds only prefixes of the path, is closed under `getParent`, and every member other than the path is the parent of another member |
| UnixPaths.AbsoluteReachesRoot | micrometer-docs-generator/src/main/java/io/micrometer/docs/DocsGeneratorCommand.java:201 | `isAbsolute` holds exactly when the chain of parents reaches the root "/" |
| DocsGenerator.MarkdownTemplate | micrometer-docs-generator/src/main/java/io/micrometer/docs/DocsGeneratorCommand.java:158 | a template in which neither "asciidoc" nor ".adoc" occurs is unchanged |
| DocsGenerator.MarkdownOutput | micrometer-docs-generator/src/main/java/io/micrometer/docs/DocsGeneratorCommand.java:163 | an output in which ".adoc" does not occur is unchanged; for a normalised output the rewrite is normalised, so the `Paths.get` around it returns it as is |
| DocsGenerator.ReplaceFromKeepsSlashes | micrometer-docs-generator/src/main/java/io/micrometer/docs/DocsGeneratorCommand.java:162-164 | a separator-free rewrite creates no double separator and keeps whether each end is a separator |
| DocsGenerator.FormatUpdated | micrometer-docs-generator/src/main/java/io/micrometer/docs/DocsGeneratorCommand.java:155-165 | `updateFormat` keeps every output in `Paths.get` form |
| DocsGenerator.EffectiveSettings | micrometer-docs-generator/src/main/java/io/micrometer/docs/DocsGeneratorCommand.java:141-143 | the format "md" gives the settings after `updateFormat`; every other format leaves them unchanged; outputs stay in `Paths.get` form |
| DocsGenerator.OtherFormatsKeepSettings | micrometer-docs-generator/src/main/java/io/micrometer/docs/DocsGeneratorCommand.java:141-143 | any format other than exactly "md" leaves the six settings unchanged |
| DocsGenerator.AsciidocDefaults | micrometer-docs-generator/src/main/java/io/micrometer/docs/DocsGeneratorCommand.java:85-87 | the default format "adoc" leaves the default settings unchanged |
| DocsGenerator.MarkdownDefaults | micrometer-docs-generator/src/main/java/io/micrometer/docs/DocsGeneratorCommand.java:61-83 | under "md" the six defaults become `templates/markdown/{metrics,spans,conventions}.md.hbs` and `_metrics.md`, `_spans.md`, `_conventions.md` |
| DocsGenerator.BundledTemplateToMarkdown | micrometer-docs-generator/src/main/java/io/micrometer/docs/DocsGeneratorCommand.java:158-160 | every bundled template `templates/asciidoc/<name>.adoc.hbs` becomes `templates/markdown/<name>.md.hbs`, for names like "metrics", "spans" and "conventions" |
| DocsGenerator.BundledOutputToMarkdown | micrometer-docs-generator/src/main/java/io/micrometer/docs/DocsGeneratorCommand.java:162-164 | an output `<name>.adoc` becomes `<name>.md`, for names like "_metrics" |
| DocsGenerator.MarkdownOutputKeepsAsciidoc | micrometer-docs-generator/src/main/java/io/micrometer/docs/DocsGeneratorCommand.java:162-164 | output names only have ".adoc" rewritten: `asciidoc/_metrics.adoc` becomes `asciidoc/_metrics.md` |
| DocsGenerator.MarkdownTemplateRenamesAsciidoc | micrometer-docs-generator/src/main/java/io/micrometer/docs/DocsGeneratorCommand.java:158-160 | the same string as a template also has "asciidoc" renamed: `markdown/_metrics.md` |
| DocsGenerator.MarkdownKeepsCustomSettings | micrometer-docs-generator/src/main/java/io/micrometer/docs/DocsGeneratorCommand.java:155-165 | under "md", templates without "asciidoc" and ".adoc" and normalised outputs without ".adoc" pass through unchanged |
| DocsGenerator.CreateDirectories | micrometer-docs-generator/src/main/java/io/micrometer/docs/DocsGeneratorCommand.java:191 | `Files.createDirectories` returns normally exactly when the directory exists afterwards; it adds only ancestors of the directory, loses none, and changes no file, also when it fails part way |
| DocsGenerator.CreateDirectoriesWellFormed | micrometer-docs-generator/src/main/java/io/micrometer/docs/DocsGeneratorCommand.java:190-195 | on a well-formed file system it fails exactly when a missing ancestor is a file or cannot be created; on success it adds exactly the missing ancestors; the file system stays well formed |
| DocsGenerator.CreateDirectoriesCreates | micrometer-docs-generator/src/main/java/io/micrometer/docs/DocsGeneratorCommand.java:190-195 | on a well-formed file system, whether it succeeds or fails part way, the directories afterwards are the old ones plus every ancestor whose creation meets nothing in the way |
| DocsGenerator.CreateDirectoriesLeavesBlocked | micrometer-docs-generator/src/main/java/io/micrometer/docs/DocsGeneratorCommand.java:193-194 | after a failure the directories made part way do not clear the obstacle: creating the directory is still blocked |
| DocsGenerator.ResolveOutputPath | micrometer-docs-generator/src/main/java/io/micrometer/docs/DocsGeneratorCommand.java:200-205 | an absolute name is returned unchanged, a relative one is resolved against the output directory (prefix and suffix stated); normalised inputs give a normalised path |
| DocsGenerator.OutputInOutputDir | micrometer-docs-generator/src/main/java/io/micrometer/docs/DocsGeneratorCommand.java:200-205 | a relative name without separator lands directly in the output directory |
| DocsGenerator.RelativeNameResolved | micrometer-docs-generator/src/main/java/io/micrometer/docs/DocsGeneratorCommand.java:204 | a relative name is joined to a non-root output directory with one separator |
| DocsGenerator.PrepareOutputPath | micrometer-docs-generator/src/main/java/io/micrometer/docs/DocsGeneratorCommand.java:184-198 | "not a file" exactly when the resolved path is an existing directory; "no parent" exactly when it is not and has no parent, and both leave the file system unchanged; on a well-formed file system it succeeds exactly when creating the parent meets no obstacle, and the directories afterwards, on success and on failure alike, are the old ones plus every ancestor of the parent whose creation meets nothing in the way; every failure names the resolved path; success returns it with its parent present; no file changes |
| DocsGenerator.Plan | micrometer-docs-generator/src/main/java/io/micrometer/docs/DocsGeneratorCommand.java:144-152 | the jobs are in the order metrics, spans, conventions; each carries its type's template and output; a type has a job exactly when its switch is on |
| DocsGenerator.GenerateDoc | micrometer-docs-generator/src/main/java/io/micrometer/docs/DocsGeneratorCommand.java:167-182 | on success the generator gets the resolved output and exactly that document is added; the directories are those the preparation leaves; a failure names the resolved output, is "not a file" exactly when that path is a directory, and on a well-formed file system happens exactly when the output cannot be prepared |
| DocsGenerator.GenerateFailureLasts | micrometer-docs-generator/src/main/java/io/micrometer/docs/DocsGeneratorCommand.java:184-198 | after a failed preparation the output still cannot be prepared |
| DocsGenerator.GenerateIntoExistingDir | micrometer-docs-generator/src/main/java/io/micrometer/docs/DocsGeneratorCommand.java:184-198 | with the output directory present and the output landing directly in it, generation succeeds and only adds the document |
| DocsGenerator.Execute | micrometer-docs-generator/src/main/java/io/micrometer/docs/DocsGeneratorCommand.java:144-152 | the files after a run are exactly those before plus the outputs of the recorded invocations; directories only grow; a well-formed file system stays well formed |
| DocsGenerator.ExecuteNext | micrometer-docs-generator/src/main/java/io/micrometer/docs/DocsGeneratorCommand.java:144-152 | the same for a run that starts with the first job |
| DocsGenerator.ExecutePrefix | micrometer-docs-generator/src/main/java/io/micrometer/docs/DocsGeneratorCommand.java:144-152 | a run's invocations are those of a prefix of the jobs, in order; it completes exactly when the prefix is all of them; otherwise the exception names the output of the first job left over, and for "not a file" that path is a directory |
| DocsGenerator.ExecuteFailureLasts | micrometer-docs-generator/src/main/java/io/micrometer/docs/DocsGeneratorCommand.java:144-152 | when a run throws, the output it names still cannot be prepared afterwards |
| DocsGenerator.ExecuteAppend | micrometer-docs-generator/src/main/java/io/micrometer/docs/DocsGeneratorCommand.java:144-152 | running `a` then `b` is running `a + b`, unless `a` threw, in which case `b` is not attempted |
| DocsGenerator.GatedStagesExecutePlan | micrometer-docs-generator/src/main/java/io/micrometer/docs/DocsGeneratorCommand.java:144-152 | the three `if (switch) generate...()` statements, an exception skipping the rest, do exactly what running the plan does |
| DocsGenerator.ExecuteIntoExistingDir | micrometer-docs-generator/src/main/java/io/micrometer/docs/DocsGeneratorCommand.java:167-198 | with the output directory present and every output landing directly in it without naming a directory, the run completes, every generator runs in order and exactly their documents are added |
| DocsGenerator.RunCommand | micrometer-docs-generator/src/main/java/io/micrometer/docs/DocsGeneratorCommand.java:133-153 | the files after `run` are exactly those before plus the documents of the invoked generators; directories only grow; a well-formed file system stays well formed |
| DocsGenerator.RunInOrder | micrometer-docs-generator/src/main/java/io/micrometer/docs/DocsGeneratorCommand.java:133-153 | at most three invocations, strictly in the order metrics, spans, conventions, each for a switched-on type, with the rewritten pattern, the template after the format switch and the resolved output |
| DocsGenerator.RunStopsAtFirstFailure | micrometer-docs-generator/src/main/java/io/micrometer/docs/DocsGeneratorCommand.java:144-152 | a run completes exactly when every switched-on type was generated; an exception names the resolved output of a switched-on type after every generated one, and for "not a file" that path is a directory |
| DocsGenerator.SlashSeparatorKeepsPattern | micrometer-docs-generator/src/main/java/io/micrometer/docs/DocsGeneratorCommand.java:135 | with "/" as platform separator the generators receive the pattern exactly as given |
| DocsGenerator.MarkdownDefaultJobs | micrometer-docs-generator/src/main/java/io/micrometer/docs/DocsGeneratorCommand.java:209-216 | with all switches at their default (on) and format "md", the jobs are the three markdown templates with `_metrics.md`, `_spans.md` and `_conventions.md` |
| DocsGenerator.MetricsMarkdownOutputResolved | micrometer-docs-generator/src/test/java/io/micrometer/docs/format/MarkdownFormatTest.java:21 | `_metrics.md` in output directory `./build/format` resolves to `./build/format/_metrics.md` |
| DocsGenerator.SpansMarkdownOutputResolved | micrometer-docs-generator/src/test/java/io/micrometer/docs/format/MarkdownFormatTest.java:34 | `_spans.md` resolves to `./build/format/_spans.md` |
| DocsGenerator.ConventionsMarkdownOutputResolved | micrometer-docs-generator/src/test/java/io/micrometer/docs/format/MarkdownFormatTest.java:45 | `_conventions.md` resolves to `./build/format/_conventions.md` |
| DocsGenerator.MarkdownDefaultExecute | micrometer-docs-generator/src/test/java/io/micrometer/docs/format/MarkdownFormatTest.java:19-50 | in the test's file system, the three markdown jobs complete and write exactly their three documents |
| DocsGenerator.MarkdownDefaultRun | micrometer-docs-generator/src/test/java/io/micrometer/docs/format/MarkdownFormatTest.java:19-50 | a default run with `--format md`, pattern ".*" and output directory `./build/format` invokes the three generators with the templates and outputs the markdown format test passes, completes, and leaves exactly those three documents |
| DocsGenerator.DocsGeneratorCommand.constructor | micrometer-docs-generator/src/main/java/io/micrometer/docs/DocsGeneratorCommand.java:49-87 | the command as picocli leaves it: the raw argument strings bound to the fields, with `Paths.get` applied to the output directory and the three outputs and the same normalisation (`new File`) to the project root; empty trace; the file system well formed |
| DocsGenerator.DocsGeneratorCommand.Run | micrometer-docs-generator/src/main/java/io/micrometer/docs/DocsGeneratorCommand.java:133-153 | the fields afterwards hold the rewritten pattern and the settings after the format switch, every path field still in `Paths.get` form; trace, file system and outcome are those of `RunCommand` on the old configuration |
| DocsGenerator.DocsGeneratorCommand.Configure | micrometer-docs-generator/src/main/java/io/micrometer/docs/DocsGeneratorCommand.java:135-143 | the pattern takes the platform separator and the six settings become `EffectiveSettings` of the format; nothing else changes |
| DocsGenerator.DocsGeneratorCommand.ApplyFormat | micrometer-docs-generator/src/main/java/io/micrometer/docs/DocsGeneratorCommand.java:141-143 | the six settings become `EffectiveSettings` of the format, the outputs still in `Paths.get` form |
| DocsGenerator.DocsGeneratorCommand.GenerateEnabled | micrometer-docs-generator/src/main/java/io/micrometer/docs/DocsGeneratorCommand.java:144-152 | the gated calls extend the trace and file system exactly as `Execute` of the plan does |
| DocsGenerator.DocsGeneratorCommand.GenerateIfEnabled | micrometer-docs-generator/src/main/java/io/micrometer/docs/DocsGeneratorCommand.java:144-146 | one `if (switch) generate...()` statement: nothing happens when the switch is off or an exception has already left `run`; otherwise one generator call |
| DocsGenerator.DocsGeneratorCommand.UpdateFormat | micrometer-docs-generator/src/main/java/io/micrometer/docs/DocsGeneratorCommand.java:155-165 | the new settings are `FormatUpdated` of the old, and the outputs stay in `Paths.get` form |
| DocsGenerator.DocsGeneratorCommand.UpdateTemplates | micrometer-docs-generator/src/main/java/io/micrometer/docs/DocsGeneratorCommand.java:158-160 | each template becomes `MarkdownTemplate` of its old value |
| DocsGenerator.DocsGeneratorCommand.UpdateOutputs | micrometer-docs-generator/src/main/java/io/micrometer/docs/DocsGeneratorCommand.java:162-164 | each output becomes `MarkdownOutput` of its old value and stays in `Paths.get` form |
| DocsGenerator.DocsGeneratorCommand.GenerateMetricsDoc | micrometer-docs-generator/src/main/java/io/micrometer/docs/DocsGeneratorCommand.java:167-170 | prepares the metrics output and invokes the metrics generator, or ends with the preparation's exception and no invocation |
| DocsGenerator.DocsGeneratorCommand.GenerateSpansDoc | micrometer-docs-generator/src/main/java/io/micrometer/docs/DocsGeneratorCommand.java:172-175 | the same for spans |
| DocsGenerator.DocsGeneratorCommand.GenerateConventionsDoc | micrometer-docs-generator/src/main/java/io/micrometer/docs/DocsGeneratorCommand.java:177-182 | the same for observation conventions |
| DocsGenerator.DocsGeneratorCommand.GenerateOne | micrometer-docs-generator/src/main/java/io/micrometer/docs/DocsGeneratorCommand.java:168-169 | the state after one preparation and generator call is `Attempt` of that job |
| DocsGenerator.DocsGeneratorCommand.InvokeGenerator | micrometer-docs-generator/src/main/java/io/micrometer/docs/DocsGeneratorCommand.java:169 | one invocation appended to the trace and its document added to the files |
| DocsGenerator.DocsGeneratorCommand.ResolveAndPrepareOutputPath | micrometer-docs-generator/src/main/java/io/micrometer/docs/DocsGeneratorCommand.java:184-198 | returns and changes the file system exactly as `PrepareOutputPath` says, directories created before a failure included |

## Left out

- picocli argument parsing, `main` and `execute` with help, version and
  error-stream output (DocsGeneratorCommand.java:89-131): library plumbing
  and I/O. The constructor takes the raw strings picocli would bind and
  applies the path conversions itself; it requires a well-formed file
  system.
- The logging calls of `run` (lines 136-139): no behaviour to state.
- `Pattern.compile` and regular-expression semantics. The pattern is its
  source text, so an exception from compiling the rewritten pattern is not
  modelled.
- The generators and their template rendering. Their source is not part of
  this model. An invocation is an `Event`, its document a new regular file,
  and a generator never fails.
- Real file-system I/O. `File.isDirectory` is membership in a set of
  directories. `Files.createDirectories` is a function on the modelled
  file system; its guarantees about success are stated for well-formed file
  systems, the only ones a real disk presents.
- Windows paths and separators. Paths follow Unix rules; the platform
  separator is a parameter that only affects the pattern text.
- `Files.createDirectories(null)`, when the resolved output has no parent (a
  single name with an empty output directory), throws a
  NullPointerException. It is modelled as the failure `NoParent`.
- DocsGenerator.MarkdownDefaultRun: the markdown format test invokes the
  generators directly rather than through the command; the lemma runs the
  command on the values the test passes.
