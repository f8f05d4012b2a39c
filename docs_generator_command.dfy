/**
 * DocsGeneratorCommand: the entry point of the documentation generator. It
 * holds the command-line configuration (project root, inclusion pattern,
 * output directory, a template and an output name per document type, the
 * template format and which document types to generate) and its `run`
 * rewrites that configuration and then invokes the metrics, spans and
 * observation-conventions generators in turn.
 *
 * The generators themselves are not part of this model: each invocation is
 * recorded as an `Event` carrying what the generator is given, and the
 * document it writes becomes a regular file of the modelled file system.
 */
module DocsGenerator {
  import opened Wrappers
  import opened JavaStrings
  import opened UnixPaths

  /** The three document types. */
  datatype DocKind = Metrics | Spans | Conventions

  /** The position of a document type in the order `run` generates them. */
  function Rank(k: DocKind): nat {
    match k
    case Metrics => 0
    case Spans => 1
    case Conventions => 2
  }

  /** The `Options` argument group: one switch per document type. */
  datatype Options = Options(metrics: bool, spans: bool, conventions: bool)

  /** `--metrics`, `--spans` and `--conventions` all default to true. */
  const DefaultOptions := Options(true, true, true)

  predicate Enabled(o: Options, k: DocKind) {
    match k
    case Metrics => o.metrics
    case Spans => o.spans
    case Conventions => o.conventions
  }

  /** The template location and the output name of each document type. */
  datatype Settings = Settings(
    metricsTemplate: string, spansTemplate: string, conventionsTemplate: string,
    metricsOutput: Path, spansOutput: Path, conventionsOutput: Path)

  /** The defaults of `--*-template` and `--*-output`. */
  const DefaultSettings := Settings(
    "templates/asciidoc/metrics.adoc.hbs", "templates/asciidoc/spans.adoc.hbs",
    "templates/asciidoc/conventions.adoc.hbs",
    "_metrics.adoc", "_spans.adoc", "_conventions.adoc")

  /** The default of `--format`. */
  const DefaultFormat := "adoc"

  function TemplateOf(s: Settings, k: DocKind): string {
    match k
    case Metrics => s.metricsTemplate
    case Spans => s.spansTemplate
    case Conventions => s.conventionsTemplate
  }

  function OutputOf(s: Settings, k: DocKind): Path {
    match k
    case Metrics => s.metricsOutput
    case Spans => s.spansOutput
    case Conventions => s.conventionsOutput
  }

  // ---------------------------------------------------------------------
  // The format switch
  // ---------------------------------------------------------------------

  /**
   * A template location under `--format md`: the asciidoc family becomes the
   * markdown one. A location that mentions neither "asciidoc" nor ".adoc"
   * (a custom template) is kept as given.
   */
  function MarkdownTemplate(t: string): (r: string)
    ensures !Occurs(t, "asciidoc") && !Occurs(t, ".adoc") ==> r == t
  {
    var r := ReplaceAll(ReplaceAll(t, "asciidoc", "markdown"), ".adoc", ".md");
    assert !Occurs(t, "asciidoc") && !Occurs(t, ".adoc") ==> r == t by {
      if !Occurs(t, "asciidoc") && !Occurs(t, ".adoc") {
        ReplaceAllWithoutOccurrence(t, "asciidoc", "markdown");
        ReplaceAllWithoutOccurrence(t, ".adoc", ".md");
      }
    }
    r
  }

  /**
   * An output name under `--format md`: only the extension changes, and a
   * name without ".adoc" is kept as given. The command passes the result
   * through `Paths.get` again; rewriting ".adoc" to ".md" in a normalised
   * path gives a normalised path (neither string holds a separator, so no
   * separator is created, removed or moved next to another one), so that
   * second `Paths.get` is the identity.
   */
  function MarkdownOutput(o: Path): (r: Path)
    ensures !Occurs(o, ".adoc") ==> r == o
    ensures Normalized(o) ==> Normalized(r) && Normalize(ReplaceAll(o, ".adoc", ".md")) == r
  {
    var r := ReplaceAll(o, ".adoc", ".md");
    assert !Occurs(o, ".adoc") ==> r == o by {
      if !Occurs(o, ".adoc") {
        ReplaceAllWithoutOccurrence(o, ".adoc", ".md");
      }
    }
    assert Normalized(o) ==> Normalized(r) by {
      if Normalized(o) {
        assert SlashFree(".adoc") && SlashFree(".md");
        ReplaceFromKeepsSlashes(o, ".adoc", ".md", 0);
        if |o| == 1 && o[0] == '/' {
          assert !MatchesAt(o, ".adoc", 0);
          assert r == ['/'] + ReplaceFrom(o, ".adoc", ".md", 1);
        }
      }
    }
    r
  }

  /** What `ReplaceFromKeepsSlashes` promises about one suffix of the result. */
  predicate KeepsSlashes(s: Path, k: nat, res: string)
    requires k <= |s|
  {
    NoDoubleSlash(res)
    && (res == [] <==> k == |s|)
    && (k < |s| ==> (res[0] == '/' <==> s[k] == '/'))
    && (k < |s| ==> (res[|res| - 1] == '/' <==> s[|s| - 1] == '/'))
  }

  /**
   * Replacing a separator-free target by a separator-free replacement keeps
   * where the separators are at both ends and creates no double separator.
   */
  lemma {:induction false} ReplaceFromKeepsSlashes(s: Path, t: string, r: string, k: nat)
    requires t != [] && r != [] && SlashFree(t) && SlashFree(r)
    requires NoDoubleSlash(s) && k <= |s|
    ensures KeepsSlashes(s, k, ReplaceFrom(s, t, r, k))
    decreases |s| - k
  {
    if k < |s| {
      if MatchesAt(s, t, k) {
        ReplaceFromKeepsSlashes(s, t, r, k + |t|);
        KeepsSlashesAfterMatch(s, t, r, k, ReplaceFrom(s, t, r, k + |t|));
      } else {
        ReplaceFromKeepsSlashes(s, t, r, k + 1);
        KeepsSlashesAfterChar(s, k, ReplaceFrom(s, t, r, k + 1));
      }
    }
  }

  lemma KeepsSlashesAfterMatch(s: Path, t: string, r: string, k: nat, rest: string)
    requires t != [] && r != [] && SlashFree(t) && SlashFree(r)
    requires MatchesAt(s, t, k) && k < |s| && KeepsSlashes(s, k + |t|, rest)
    ensures KeepsSlashes(s, k, r + rest)
  {
    var k' := k + |t|;
    MatchesAtSlice(s, t, k);
    assert s[k] == s[k..k'][0] == t[0];
    assert s[k' - 1] == s[k..k'][|t| - 1] == t[|t| - 1];
    assert NoDoubleSlash(r);
    NoDoubleSlashConcat(r, rest);
    if rest != [] {
      assert (r + rest)[|r + rest| - 1] == rest[|rest| - 1];
    }
  }

  lemma KeepsSlashesAfterChar(s: Path, k: nat, rest: string)
    requires NoDoubleSlash(s) && k < |s| && KeepsSlashes(s, k + 1, rest)
    ensures KeepsSlashes(s, k, [s[k]] + rest)
  {
    if k + 1 < |s| {
      assert !(s[k] == '/' && s[k + 1] == '/');
      assert ([s[k]] + rest)[|rest|] == rest[|rest| - 1];
    }
    NoDoubleSlashConcat([s[k]], rest);
  }


  /** Every output name of `s` is a normalised path, as `Paths.get` returns them. */
  predicate OutputsNormalized(s: Settings) {
    forall k :: Normalized(OutputOf(s, k))
  }

  /**
   * What `updateFormat` makes of the six settings: each template location and
   * each output name rewritten; the output names stay normalised paths.
   */
  function FormatUpdated(s: Settings): (r: Settings)
    ensures OutputsNormalized(s) ==> OutputsNormalized(r)
  {
    var r := Settings(
      MarkdownTemplate(s.metricsTemplate), MarkdownTemplate(s.spansTemplate),
      MarkdownTemplate(s.conventionsTemplate),
      MarkdownOutput(s.metricsOutput), MarkdownOutput(s.spansOutput),
      MarkdownOutput(s.conventionsOutput));
    assert OutputsNormalized(s) ==> OutputsNormalized(r) by {
      if OutputsNormalized(s) {
        assert Normalized(OutputOf(s, Metrics)) && Normalized(OutputOf(s, Spans)) && Normalized(OutputOf(s, Conventions));
      }
    }
    r
  }

  /**
   * The settings `run` generates with: rewritten only when the format is
   * exactly "md", and kept otherwise; the output names stay normalised paths
   * either way.
   */
  function EffectiveSettings(format: string, s: Settings): (r: Settings)
    ensures format == "md" ==> r == FormatUpdated(s)
    ensures format != "md" ==> r == s
    ensures OutputsNormalized(s) ==> OutputsNormalized(r)
  {
    if format == "md" then FormatUpdated(s) else s
  }

  /** Under the default `--format adoc` the defaults are used as they are. */
  lemma AsciidocDefaults()
    ensures EffectiveSettings(DefaultFormat, DefaultSettings) == DefaultSettings
  {
  }

  /** The defaults under `--format md` are the markdown templates and `.md` outputs. */
  lemma MarkdownDefaults()
    ensures FormatUpdated(DefaultSettings) == Settings(
      "templates/markdown/metrics.md.hbs", "templates/markdown/spans.md.hbs",
      "templates/markdown/conventions.md.hbs",
      "_metrics.md", "_spans.md", "_conventions.md")
  {
    MetricsDefaultsToMarkdown();
    SpansDefaultsToMarkdown();
    ConventionsDefaultsToMarkdown();
  }

  lemma MetricsDefaultsToMarkdown()
    ensures MarkdownTemplate("templates/asciidoc/metrics.adoc.hbs") == "templates/markdown/metrics.md.hbs"
    ensures MarkdownOutput("_metrics.adoc") == "_metrics.md"
  {
    BundledTemplateToMarkdown("metrics");
    BundledOutputToMarkdown("_metrics");
    MetricsTemplateCut();
    MetricsOutputCut();
  }

  lemma SpansDefaultsToMarkdown()
    ensures MarkdownTemplate("templates/asciidoc/spans.adoc.hbs") == "templates/markdown/spans.md.hbs"
    ensures MarkdownOutput("_spans.adoc") == "_spans.md"
  {
    BundledTemplateToMarkdown("spans");
    BundledOutputToMarkdown("_spans");
    SpansTemplateCut();
    SpansOutputCut();
  }

  lemma ConventionsDefaultsToMarkdown()
    ensures MarkdownTemplate("templates/asciidoc/conventions.adoc.hbs") == "templates/markdown/conventions.md.hbs"
    ensures MarkdownOutput("_conventions.adoc") == "_conventions.md"
  {
    BundledTemplateToMarkdown("conventions");
    BundledOutputToMarkdown("_conventions");
    ConventionsTemplateCut();
    ConventionsOutputCut();
  }

  // The default locations cut into the pieces the lemmas below take.

  lemma MetricsTemplateCut()
    ensures "templates/asciidoc/metrics.adoc.hbs" == "templates/" + "asciidoc/" + ("metrics" + ".") + "adoc.hbs"
    ensures "templates/markdown/metrics.md.hbs" == "templates/" + "markdown/" + "metrics" + ".md.hbs"
  {
  }

  lemma SpansTemplateCut()
    ensures "templates/asciidoc/spans.adoc.hbs" == "templates/" + "asciidoc/" + ("spans" + ".") + "adoc.hbs"
    ensures "templates/markdown/spans.md.hbs" == "templates/" + "markdown/" + "spans" + ".md.hbs"
  {
  }

  lemma ConventionsTemplateCut()
    ensures "templates/asciidoc/conventions.adoc.hbs" == "templates/" + "asciidoc/" + ("conventions" + ".") + "adoc.hbs"
    ensures "templates/markdown/conventions.md.hbs" == "templates/" + "markdown/" + "conventions" + ".md.hbs"
  {
  }

  lemma MetricsOutputCut()
    ensures "_metrics.adoc" == "_metrics" + ".adoc" && "_metrics.md" == "_metrics" + ".md"
  {
  }

  lemma SpansOutputCut()
    ensures "_spans.adoc" == "_spans" + ".adoc" && "_spans.md" == "_spans" + ".md"
  {
  }

  lemma ConventionsOutputCut()
    ensures "_conventions.adoc" == "_conventions" + ".adoc" && "_conventions.md" == "_conventions" + ".md"
  {
  }

  // The literal pieces the two passes rewrite; each is evaluated on its own.

  lemma AsciidocDirInAsciidocPass()
    ensures ReplaceAll("asciidoc/", "asciidoc", "markdown") == "markdown/"
  {
  }

  lemma AdocHbsInAdocPass()
    ensures ReplaceAll(".adoc.hbs", ".adoc", ".md") == ".md.hbs"
  {
    var s, t, r := ".adoc.hbs", ".adoc", ".md";
    assert s[0..5] == t;
    MatchesAtSlice(s, t, 0);
    ReplaceFromAtMatch(s, t, r, 0, 5);
    ReplaceFromAtCopy(s, t, r, 5, 6);
    ReplaceFromAtCopy(s, t, r, 6, 7);
    ReplaceFromAtCopy(s, t, r, 7, 8);
    ReplaceFromAtCopy(s, t, r, 8, 9);
    ReplaceFromAtEnd(s, t, r, 9);
    assert r + ([s[5]] + ([s[6]] + ([s[7]] + ([s[8]] + [])))) == ".md.hbs";
  }

  lemma AdocInAdocPass()
    ensures ReplaceAll(".adoc", ".adoc", ".md") == ".md"
  {
  }

  /**
   * A bundled template `templates/asciidoc/<name>.adoc.hbs` under "md" is
   * `templates/markdown/<name>.md.hbs`. The location is given cut into the
   * pieces the first pass takes separately (`ReplaceAllPieces`): every cut
   * falls after a character the target does not contain, so no occurrence
   * straddles it, and a piece missing a character of the target is kept.
   */
  lemma BundledTemplateToMarkdown(name: string)
    requires name != [] && 'd' !in name && '.' !in name && name[|name| - 1] !in ".adoc"
    ensures MarkdownTemplate("templates/" + "asciidoc/" + (name + ".") + "adoc.hbs")
         == "templates/" + "markdown/" + name + ".md.hbs"
  {
    BundledTemplateAsciidocPass(name);
    BundledTemplateRecut(name);
    BundledTemplateAdocPass(name);
  }

  lemma BundledTemplateAsciidocPass(name: string)
    requires name != [] && 'd' !in name
    ensures ReplaceAll("templates/" + "asciidoc/" + (name + ".") + "adoc.hbs", "asciidoc", "markdown")
         == "templates/" + "markdown/" + (name + ".") + "adoc.hbs"
  {
    AsciidocPassKeeps(name);
    AsciidocDirInAsciidocPass();
    ReplaceAllPieces("templates/", "asciidoc/", name + ".", "adoc.hbs", "asciidoc", "markdown");
  }

  /** The pieces of a bundled template location the first pass keeps. */
  lemma AsciidocPassKeeps(name: string)
    requires 'd' !in name
    ensures ReplaceAll("templates/", "asciidoc", "markdown") == "templates/"
    ensures ReplaceAll(name + ".", "asciidoc", "markdown") == name + "."
    ensures ReplaceAll("adoc.hbs", "asciidoc", "markdown") == "adoc.hbs"
  {
    ReplaceAllWithoutChar("templates/", "asciidoc", "markdown", 'd');
    ReplaceAllWithoutChar(name + ".", "asciidoc", "markdown", 'd');
    ReplaceAllWithoutChar("adoc.hbs", "asciidoc", "markdown", 'i');
  }

  /** The second pass cuts the same location before the dot instead of after it. */
  lemma BundledTemplateRecut(name: string)
    ensures "templates/" + "markdown/" + (name + ".") + "adoc.hbs" == "templates/" + "markdown/" + name + ".adoc.hbs"
  {
    var dir := "templates/" + "markdown/";
    AppendAssoc(dir, name + ".", "adoc.hbs");
    AppendAssoc(name, ".", "adoc.hbs");
    assert "." + "adoc.hbs" == ".adoc.hbs";
    AppendAssoc(dir, name, ".adoc.hbs");
  }

  lemma BundledTemplateAdocPass(name: string)
    requires name != [] && '.' !in name && name[|name| - 1] !in ".adoc"
    ensures ReplaceAll("templates/" + "markdown/" + name + ".adoc.hbs", ".adoc", ".md")
         == "templates/" + "markdown/" + name + ".md.hbs"
  {
    ReplaceAllWithoutChar("templates/", ".adoc", ".md", '.');
    ReplaceAllWithoutChar("markdown/", ".adoc", ".md", '.');
    ReplaceAllWithoutChar(name, ".adoc", ".md", '.');
    AdocHbsInAdocPass();
    ReplaceAllPieces("templates/", "markdown/", name, ".adoc.hbs", ".adoc", ".md");
  }

  /** A bundled output name `<name>.adoc` under "md" is `<name>.md`. */
  lemma BundledOutputToMarkdown(name: string)
    requires name != [] && '.' !in name && name[|name| - 1] !in ".adoc"
    ensures MarkdownOutput(name + ".adoc") == name + ".md"
  {
    ReplaceAllWithoutChar(name, ".adoc", ".md", '.');
    AdocInAdocPass();
    ReplaceAllConcat(name, ".adoc", ".adoc", ".md");
  }

  /** Output names only have ".adoc" rewritten: a directory called "asciidoc" keeps its name. */
  lemma MarkdownOutputKeepsAsciidoc()
    ensures MarkdownOutput("asciidoc/_metrics.adoc") == "asciidoc/_metrics.md"
  {
    BundledOutputToMarkdown("_metrics");
    ReplaceAllWithoutChar("asciidoc/", ".adoc", ".md", '.');
    ReplaceAllConcat("asciidoc/", "_metrics" + ".adoc", ".adoc", ".md");
    NestedCuts();
  }

  lemma NestedCuts()
    ensures "asciidoc/_metrics.adoc" == "asciidoc/" + ("_metrics" + ".adoc")
    ensures "asciidoc/_metrics.md" == "asciidoc/" + ("_metrics" + ".md")
    ensures "asciidoc/_metrics.adoc" == "asciidoc/" + ("_metrics." + "adoc")
    ensures "markdown/" + ("_metrics." + "adoc") == "markdown/" + ("_metrics" + ".adoc")
    ensures "markdown/_metrics.md" == "markdown/" + ("_metrics" + ".md")
  {
  }

  /** The same location as a template: there the directory is renamed too. */
  lemma MarkdownTemplateRenamesAsciidoc()
    ensures MarkdownTemplate("asciidoc/_metrics.adoc") == "markdown/_metrics.md"
  {
    NestedTemplateAsciidocPass();
    BundledOutputToMarkdown("_metrics");
    ReplaceAllWithoutChar("markdown/", ".adoc", ".md", '.');
    ReplaceAllConcat("markdown/", "_metrics" + ".adoc", ".adoc", ".md");
    NestedCuts();
  }

  lemma NestedTemplateAsciidocPass()
    ensures ReplaceAll("asciidoc/" + ("_metrics." + "adoc"), "asciidoc", "markdown") == "markdown/" + ("_metrics." + "adoc")
  {
    AsciidocDirInAsciidocPass();
    NestedNameKept();
    ReplaceAllConcat("asciidoc/", "_metrics." + "adoc", "asciidoc", "markdown");
  }

  lemma NestedNameKept()
    ensures ReplaceAll("_metrics." + "adoc", "asciidoc", "markdown") == "_metrics." + "adoc"
  {
    ReplaceAllWithoutChar("_metrics.", "asciidoc", "markdown", 'd');
    ReplaceAllWithoutChar("adoc", "asciidoc", "markdown", 'i');
    ReplaceAllConcat("_metrics.", "adoc", "asciidoc", "markdown");
  }

  /** Any format other than exactly "md" ("adoc", "MD", "markdown", ...) leaves the six settings as given. */
  lemma OtherFormatsKeepSettings(format: string, s: Settings)
    requires format != "md"
    ensures EffectiveSettings(format, s) == s
  {
  }

  /**
   * Under "md", settings that mention neither "asciidoc" nor ".adoc" (custom
   * templates and output names) pass through untouched.
   */
  lemma MarkdownKeepsCustomSettings(s: Settings)
    requires forall k :: !Occurs(TemplateOf(s, k), "asciidoc") && !Occurs(TemplateOf(s, k), ".adoc")
    requires forall k :: !Occurs(OutputOf(s, k), ".adoc") && Normalized(OutputOf(s, k))
    ensures EffectiveSettings("md", s) == s
  {
    forall k ensures MarkdownTemplate(TemplateOf(s, k)) == TemplateOf(s, k)
                  && MarkdownOutput(OutputOf(s, k)) == OutputOf(s, k) {
      ReplaceAllWithoutOccurrence(TemplateOf(s, k), "asciidoc", "markdown");
      ReplaceAllWithoutOccurrence(TemplateOf(s, k), ".adoc", ".md");
      ReplaceAllWithoutOccurrence(OutputOf(s, k), ".adoc", ".md");
    }
    assert TemplateOf(s, Metrics) == s.metricsTemplate && OutputOf(s, Metrics) == s.metricsOutput;
    assert TemplateOf(s, Spans) == s.spansTemplate && OutputOf(s, Spans) == s.spansOutput;
    assert TemplateOf(s, Conventions) == s.conventionsTemplate && OutputOf(s, Conventions) == s.conventionsOutput;
  }

  // ---------------------------------------------------------------------
  // Output paths and the file system
  // ---------------------------------------------------------------------

  /**
   * The file system as the command sees it: the existing directories, the
   * existing regular files, and the paths at which a directory cannot be
   * created (no permission, read-only mount, ...).
   */
  datatype FileSystem = FileSystem(dirs: set<Path>, files: set<Path>, unwritable: set<Path>)

  /**
   * A file system as one can be: the parent of every directory and of every
   * file is a directory, and no path is both a directory and a file.
   */
  predicate WellFormed(fs: FileSystem) {
    (forall d :: d in fs.dirs && Parent(d).Some? ==> Parent(d).value in fs.dirs)
    && (forall f :: f in fs.files ==> f !in fs.dirs && (Parent(f).Some? ==> Parent(f).value in fs.dirs))
  }

  /** Creating `dir` and its missing parents meets a path that is a file or cannot be created. */
  predicate Blocked(fs: FileSystem, dir: Path) {
    exists a :: a in Ancestors(dir) && a !in fs.dirs && (a in fs.files || a in fs.unwritable)
  }

  /** The ancestors of `dir` (itself included) whose creation meets nothing in the way. */
  function Creatable(fs: FileSystem, dir: Path): set<Path> {
    set a | a in Ancestors(dir) && !Blocked(fs, a)
  }

  /** The file system after `Files.createDirectories`, and whether the call returned normally. */
  datatype Created = Created(fs: FileSystem, ok: bool)

  /**
   * `Files.createDirectories(dir)`: the missing directories are created from
   * the top down; the first one that is a file or cannot be created ends the
   * call with an IOException, and the directories made before it remain.
   */
  function CreateDirectories(fs: FileSystem, dir: Path): (r: Created)
    ensures r.fs.files == fs.files && r.fs.unwritable == fs.unwritable
    ensures fs.dirs <= r.fs.dirs <= fs.dirs + Ancestors(dir)
    ensures r.ok <==> dir in r.fs.dirs
    decreases |dir|
  {
    if dir in fs.dirs then Created(fs, true)
    else
      var above := match Parent(dir)
        case None => Created(fs, true)
        case Some(q) => CreateDirectories(fs, q);
      assert dir !in above.fs.dirs by {
        if Parent(dir).Some? {
          assert forall a :: a in Ancestors(Parent(dir).value) ==> |a| < |dir|;
        }
      }
      if !above.ok || dir in fs.files || dir in fs.unwritable then Created(above.fs, false)
      else Created(above.fs.(dirs := above.fs.dirs + {dir}), true)
  }

  /**
   * On a well-formed file system, `createDirectories` succeeds exactly when
   * no missing ancestor is a file or unwritable; it then adds exactly the
   * missing ancestors, and in every case the file system stays well formed.
   */
  lemma {:induction false} CreateDirectoriesWellFormed(fs: FileSystem, dir: Path)
    requires WellFormed(fs)
    ensures WellFormed(CreateDirectories(fs, dir).fs)
    ensures CreateDirectories(fs, dir).ok <==> !Blocked(fs, dir)
    ensures CreateDirectories(fs, dir).ok ==> CreateDirectories(fs, dir).fs.dirs == fs.dirs + Ancestors(dir)
    decreases |dir|
  {
    if dir in fs.dirs {
      AncestorsOfDirectory(fs, dir);
    } else {
      match Parent(dir)
      case None =>
        assert Ancestors(dir) == {dir};
      case Some(q) =>
        CreateDirectoriesWellFormed(fs, q);
        BlockedStep(fs, dir, q);
    }
  }

  /**
   * On a well-formed file system, whether `createDirectories` succeeds or
   * fails part way, the directories afterwards are the old ones plus every
   * ancestor whose creation meets nothing in the way: those above the
   * obstacle remain.
   */
  lemma {:induction false} CreateDirectoriesCreates(fs: FileSystem, dir: Path)
    requires WellFormed(fs)
    ensures CreateDirectories(fs, dir).fs.dirs == fs.dirs + Creatable(fs, dir)
    decreases |dir|
  {
    if dir in fs.dirs {
      AncestorsOfDirectory(fs, dir);
    } else {
      match Parent(dir)
      case None =>
        assert Ancestors(dir) == {dir};
        assert Creatable(fs, dir) == if Blocked(fs, dir) then {} else {dir};
      case Some(q) =>
        CreateDirectoriesCreates(fs, q);
        CreateDirectoriesWellFormed(fs, q);
        BlockedStep(fs, dir, q);
        CreatableStep(fs, dir, q);
    }
  }

  /** Creating `dir` can create what creating its parent can, and `dir` itself when it is not blocked. */
  lemma CreatableStep(fs: FileSystem, dir: Path, q: Path)
    requires Parent(dir) == Some(q)
    ensures Creatable(fs, dir) == Creatable(fs, q) + (if Blocked(fs, dir) then {} else {dir})
  {
    BlockedStep(fs, dir, q);
  }

  /**
   * A failed `createDirectories` leaves the path that stopped it in place:
   * the directory is still blocked in the file system it leaves behind.
   */
  lemma {:induction false} CreateDirectoriesLeavesBlocked(fs: FileSystem, dir: Path)
    ensures !CreateDirectories(fs, dir).ok ==> Blocked(CreateDirectories(fs, dir).fs, dir)
    decreases |dir|
  {
    var r := CreateDirectories(fs, dir);
    if !r.ok {
      match Parent(dir)
      case None =>
        assert dir in Ancestors(dir) && dir !in r.fs.dirs;
      case Some(q) =>
        CreateDirectoriesLeavesBlocked(fs, q);
        BlockedStep(r.fs, dir, q);
        assert dir !in r.fs.dirs;
    }
  }

  /** The ancestors of an existing directory exist. */
  lemma {:induction false} AncestorsOfDirectory(fs: FileSystem, d: Path)
    requires WellFormed(fs) && d in fs.dirs
    ensures Ancestors(d) <= fs.dirs
    decreases |d|
  {
    match Parent(d)
    case None =>
    case Some(q) => AncestorsOfDirectory(fs, q);
  }

  /** `dir` is blocked when it is itself in the way or its parent is blocked. */
  lemma BlockedStep(fs: FileSystem, dir: Path, q: Path)
    requires Parent(dir) == Some(q)
    ensures Ancestors(dir) == {dir} + Ancestors(q)
    ensures Blocked(fs, dir) <==> (dir !in fs.dirs && (dir in fs.files || dir in fs.unwritable)) || Blocked(fs, q)
  {
    if Blocked(fs, dir) {
      var a :| a in Ancestors(dir) && a !in fs.dirs && (a in fs.files || a in fs.unwritable);
      if a != dir {
        assert a in Ancestors(q);
      }
    }
    if Blocked(fs, q) {
      var a :| a in Ancestors(q) && a !in fs.dirs && (a in fs.files || a in fs.unwritable);
      assert a in Ancestors(dir);
    }
  }

  /** `resolveOutputPath`: an absolute output name is kept, a relative one is resolved against the output directory. */
  function ResolveOutputPath(outputDir: Path, specified: Path): (r: Path)
    ensures IsAbsolute(specified) ==> r == specified
    ensures !IsAbsolute(specified) ==> r == Resolve(outputDir, specified)
    ensures !IsAbsolute(specified) && specified != [] && outputDir != [] ==>
              outputDir <= r && |specified| < |r| && r[|r| - |specified|..] == specified
    ensures Normalized(outputDir) && Normalized(specified) ==> Normalized(r)
  {
    var r := if IsAbsolute(specified) then specified else Resolve(outputDir, specified);
    assert Normalized(outputDir) && Normalized(specified) ==> Normalized(r) by {
      if Normalized(outputDir) && Normalized(specified) {
        ResolveNormalized(outputDir, specified);
      }
    }
    r
  }

  /** A relative output name without separators lands directly in the output directory. */
  lemma OutputInOutputDir(outputDir: Path, name: Path)
    requires outputDir != [] && name != [] && forall j :: 0 <= j < |name| ==> name[j] != '/'
    ensures Parent(ResolveOutputPath(outputDir, name)) == Some(outputDir)
  {
    ResolveParent(outputDir, name);
  }

  /** The exceptions `resolveAndPrepareOutputPath` lets escape, each carrying the resolved path. */
  datatype Failure =
    | NotAFile(path: Path)        // IllegalArgumentException: "<path> is not a file"
    | NoParent(path: Path)        // NullPointerException from Files.createDirectories(null)
    | PrepareFailed(path: Path)   // RuntimeException: "Failed to prepare output directory for <path>"

  /** What a step did: its result or the exception it threw, and the file system afterwards. */
  datatype Effect<T> = Effect(result: Result<T, Failure>, fs: FileSystem)

  /**
   * The resolved output can be prepared: it is not a directory, it has a
   * parent, and creating that parent meets nothing in the way.
   */
  predicate Preparable(fs: FileSystem, resolved: Path) {
    resolved !in fs.dirs && Parent(resolved).Some? && !Blocked(fs, Parent(resolved).value)
  }

  /**
   * `resolveAndPrepareOutputPath`: the resolved output must not be an
   * existing directory; then its parent directory is created.
   */
  function PrepareOutputPath(outputDir: Path, specified: Path, fs: FileSystem): (r: Effect<Path>)
    ensures var resolved := ResolveOutputPath(outputDir, specified);
            && (r.result.Err? ==> r.result.error.path == resolved)
            && ((r.result.Err? && r.result.error.NotAFile?) <==> resolved in fs.dirs)
            && ((r.result.Err? && r.result.error.NoParent?) <==> resolved !in fs.dirs && Parent(resolved).None?)
            && (r.result.Ok? ==> r.result.value == resolved && resolved !in r.fs.dirs)
            && (r.result.Ok? ==> Parent(resolved).Some? && Parent(resolved).value in r.fs.dirs)
            && (WellFormed(fs) ==> (r.result.Ok? <==> Preparable(fs, resolved)))
    ensures var resolved := ResolveOutputPath(outputDir, specified);
      && (resolved in fs.dirs || Parent(resolved).None? ==> r.fs == fs)
      && (WellFormed(fs) && resolved !in fs.dirs && Parent(resolved).Some? ==>
            r.fs.dirs == fs.dirs + Creatable(fs, Parent(resolved).value))
    ensures fs.dirs <= r.fs.dirs && r.fs.files == fs.files && r.fs.unwritable == fs.unwritable
    ensures WellFormed(fs) ==> WellFormed(r.fs)
  {
    var resolved := ResolveOutputPath(outputDir, specified);
    if resolved in fs.dirs then Effect(Err(NotAFile(resolved)), fs)
    else match Parent(resolved)
      case None => Effect(Err(NoParent(resolved)), fs)
      case Some(parent) =>
        var created := CreateDirectories(fs, parent);
        assert WellFormed(fs) ==> WellFormed(created.fs) && (created.ok <==> !Blocked(fs, parent))
                                  && created.fs.dirs == fs.dirs + Creatable(fs, parent) by {
          if WellFormed(fs) {
            CreateDirectoriesWellFormed(fs, parent);
            CreateDirectoriesCreates(fs, parent);
          }
        }
        assert resolved !in created.fs.dirs by {
          assert forall a :: a in Ancestors(parent) ==> |a| < |resolved|;
        }
        if created.ok then Effect(Ok(resolved), created.fs)
        else Effect(Err(PrepareFailed(resolved)), created.fs)
  }

  // ---------------------------------------------------------------------
  // Generation
  // ---------------------------------------------------------------------

  /** One generator invocation: the document type and the four arguments its constructor receives. */
  datatype Event = Generated(kind: DocKind, projectRoot: string, inclusionPattern: string, template: string, output: Path)

  /** A document type to generate, with its template and unresolved output name. */
  datatype Job = Job(kind: DocKind, template: string, output: Path)

  /** What every generator of one run shares. */
  datatype Context = Context(projectRoot: string, inclusionPattern: string, outputDir: Path)

  function JobFor(s: Settings, k: DocKind): Job {
    Job(k, TemplateOf(s, k), OutputOf(s, k))
  }

  function EventFor(ctx: Context, job: Job): Event {
    Generated(job.kind, ctx.projectRoot, ctx.inclusionPattern, job.template, ResolveOutputPath(ctx.outputDir, job.output))
  }

  /** The jobs `run` works through: metrics, spans, conventions, each only when switched on. */
  function Plan(o: Options, s: Settings): (r: seq<Job>)
    ensures forall i, j :: 0 <= i < j < |r| ==> Rank(r[i].kind) < Rank(r[j].kind)
    ensures forall i :: 0 <= i < |r| ==> r[i] == JobFor(s, r[i].kind)
    ensures forall k :: Enabled(o, k) <==> JobFor(s, k) in r
  {
    (if o.metrics then [JobFor(s, Metrics)] else [])
    + (if o.spans then [JobFor(s, Spans)] else [])
    + (if o.conventions then [JobFor(s, Conventions)] else [])
  }

  /**
   * `generateMetricsDoc` and its two siblings: prepare the output, then run
   * the generator, which writes it. When the preparation throws, the
   * directories it created before failing remain.
   */
  function GenerateDoc(ctx: Context, job: Job, fs: FileSystem): (r: Effect<Event>)
    ensures var resolved := ResolveOutputPath(ctx.outputDir, job.output);
            && (r.result.Ok? ==> r.result.value == EventFor(ctx, job))
            && (r.result.Err? ==> r.result.error.path == resolved)
            && ((r.result.Err? && r.result.error.NotAFile?) <==> resolved in fs.dirs)
            && (WellFormed(fs) ==> (r.result.Ok? <==> Preparable(fs, resolved)))
    ensures r.fs.files == if r.result.Ok? then fs.files + {r.result.value.output} else fs.files
    ensures r.fs.dirs == PrepareOutputPath(ctx.outputDir, job.output, fs).fs.dirs
    ensures fs.dirs <= r.fs.dirs && r.fs.unwritable == fs.unwritable
    ensures WellFormed(fs) ==> WellFormed(r.fs)
  {
    var p := PrepareOutputPath(ctx.outputDir, job.output, fs);
    match p.result
    case Err(f) => Effect(Err(f), p.fs)
    case Ok(path) =>
      Effect(Ok(Generated(job.kind, ctx.projectRoot, ctx.inclusionPattern, job.template, path)),
             p.fs.(files := p.fs.files + {path}))
  }

  /** Whether `run` finished or which exception escaped it. */
  datatype Outcome = Completed | Threw(failure: Failure)

  /** The generator invocations of a run, the file system afterwards, and how the run ended. */
  datatype RunResult = RunResult(events: seq<Event>, fs: FileSystem, outcome: Outcome)

  /**
   * Works through the jobs in order; the first exception ends the run, so
   * the jobs after the failing one are never attempted.
   */
  function Execute(ctx: Context, jobs: seq<Job>, fs: FileSystem): (r: RunResult)
    ensures fs.dirs <= r.fs.dirs && r.fs.unwritable == fs.unwritable
    ensures r.fs.files == fs.files + OutputsOf(r.events)
    ensures WellFormed(fs) ==> WellFormed(r.fs)
    decreases |jobs|, 1
  {
    if jobs == [] then RunResult([], fs, Completed) else ExecuteNext(ctx, jobs, fs)
  }

  /** The first job's generator, then the rest of the run if it did not throw. */
  function ExecuteNext(ctx: Context, jobs: seq<Job>, fs: FileSystem): (r: RunResult)
    requires jobs != []
    ensures fs.dirs <= r.fs.dirs && r.fs.unwritable == fs.unwritable
    ensures r.fs.files == fs.files + OutputsOf(r.events)
    ensures WellFormed(fs) ==> WellFormed(r.fs)
    decreases |jobs|, 0
  {
    var g := GenerateDoc(ctx, jobs[0], fs);
    match g.result
    case Err(f) => RunResult([], g.fs, Threw(f))
    case Ok(e) =>
      var rest := Execute(ctx, jobs[1..], g.fs);
      assert OutputsOf([e] + rest.events) == {e.output} + OutputsOf(rest.events) by {
        assert ([e] + rest.events)[0] == e && ([e] + rest.events)[1..] == rest.events;
      }
      RunResult([e] + rest.events, rest.fs, rest.outcome)
  }

  /**
   * `r` ran a prefix of `jobs`: one event per job of the prefix, in order; it
   * completed exactly when the prefix is all of them, and otherwise the
   * exception is about the output of the first job left over, a "not a
   * file" one about a path that is a directory.
   */
  predicate RunsPrefix(ctx: Context, jobs: seq<Job>, r: RunResult) {
    |r.events| <= |jobs|
    && (forall i :: 0 <= i < |r.events| ==> r.events[i] == EventFor(ctx, jobs[i]))
    && (r.outcome.Completed? <==> |r.events| == |jobs|)
    && (r.outcome.Threw? ==> r.outcome.failure.path == ResolveOutputPath(ctx.outputDir, jobs[|r.events|].output))
    && (r.outcome.Threw? && r.outcome.failure.NotAFile? ==> r.outcome.failure.path in r.fs.dirs)
  }

  /** Every run of `Execute` runs a prefix of its jobs. */
  lemma {:induction false} ExecutePrefix(ctx: Context, jobs: seq<Job>, fs: FileSystem)
    ensures RunsPrefix(ctx, jobs, Execute(ctx, jobs, fs))
    decreases |jobs|
  {
    if jobs != [] {
      var g := GenerateDoc(ctx, jobs[0], fs);
      if g.result.Ok? {
        ExecutePrefix(ctx, jobs[1..], g.fs);
        ExecuteStep(ctx, jobs, fs);
        PrefixAfterEvent(ctx, jobs, Execute(ctx, jobs[1..], g.fs), Execute(ctx, jobs, fs));
      } else {
        ExecuteThrows(ctx, jobs, fs);
      }
    }
  }

  /** One more event in front of a run of the remaining jobs. */
  lemma PrefixAfterEvent(ctx: Context, jobs: seq<Job>, rest: RunResult, r: RunResult)
    requires jobs != [] && RunsPrefix(ctx, jobs[1..], rest)
    requires r == RunResult([EventFor(ctx, jobs[0])] + rest.events, rest.fs, rest.outcome)
    ensures RunsPrefix(ctx, jobs, r)
  {
    forall i | 0 < i < |r.events| ensures r.events[i] == EventFor(ctx, jobs[i]) {
      assert r.events[i] == rest.events[i - 1] && jobs[i] == jobs[1..][i - 1];
    }
    if r.outcome.Threw? {
      assert jobs[|r.events|] == jobs[1..][|rest.events|];
    }
  }

  /** One step of `Execute`: the first job's generator ran. */
  lemma ExecuteStep(ctx: Context, jobs: seq<Job>, fs: FileSystem)
    requires jobs != [] && GenerateDoc(ctx, jobs[0], fs).result.Ok?
    ensures var g := GenerateDoc(ctx, jobs[0], fs);
            var rest := Execute(ctx, jobs[1..], g.fs);
            Execute(ctx, jobs, fs) == RunResult([g.result.value] + rest.events, rest.fs, rest.outcome)
  {
    assert Execute(ctx, jobs, fs) == ExecuteNext(ctx, jobs, fs);
  }

  /** One step of `Execute`: the first job threw, and nothing else was attempted. */
  lemma ExecuteThrows(ctx: Context, jobs: seq<Job>, fs: FileSystem)
    requires jobs != [] && GenerateDoc(ctx, jobs[0], fs).result.Err?
    ensures var g := GenerateDoc(ctx, jobs[0], fs);
            Execute(ctx, jobs, fs) == RunResult([], g.fs, Threw(g.result.error))
  {
    assert Execute(ctx, jobs, fs) == ExecuteNext(ctx, jobs, fs);
  }

  /**
   * A failed preparation is lasting: in the file system it leaves behind
   * (with whatever directories it created before failing), the same output
   * still cannot be prepared.
   */
  lemma GenerateFailureLasts(ctx: Context, job: Job, fs: FileSystem)
    ensures var g := GenerateDoc(ctx, job, fs);
            g.result.Err? ==> !Preparable(g.fs, g.result.error.path)
  {
    var resolved := ResolveOutputPath(ctx.outputDir, job.output);
    if resolved !in fs.dirs && Parent(resolved).Some? {
      CreateDirectoriesLeavesBlocked(fs, Parent(resolved).value);
    }
  }

  /** A run that threw leaves a file system in which the failing output still cannot be prepared. */
  lemma {:induction false} ExecuteFailureLasts(ctx: Context, jobs: seq<Job>, fs: FileSystem)
    ensures var r := Execute(ctx, jobs, fs);
            r.outcome.Threw? ==> !Preparable(r.fs, r.outcome.failure.path)
    decreases |jobs|
  {
    if jobs != [] {
      var g := GenerateDoc(ctx, jobs[0], fs);
      if g.result.Err? {
        ExecuteThrows(ctx, jobs, fs);
        GenerateFailureLasts(ctx, jobs[0], fs);
      } else {
        ExecuteStep(ctx, jobs, fs);
        ExecuteFailureLasts(ctx, jobs[1..], g.fs);
      }
    }
  }

  /** Running `a` and then `b` is running `a + b`, unless `a` already threw. */
  lemma {:induction false} ExecuteAppend(ctx: Context, a: seq<Job>, b: seq<Job>, fs: FileSystem)
    ensures var ra := Execute(ctx, a, fs);
            var rb := Execute(ctx, b, ra.fs);
            Execute(ctx, a + b, fs)
              == if ra.outcome.Threw? then ra else RunResult(ra.events + rb.events, rb.fs, rb.outcome)
    decreases |a|
  {
    if a == [] {
      assert a + b == b;
    } else {
      var ab := a + b;
      assert ab != [] && ab[0] == a[0] && ab[1..] == a[1..] + b;
      var g := GenerateDoc(ctx, a[0], fs);
      if g.result.Err? {
        ExecuteThrows(ctx, a, fs);
        ExecuteThrows(ctx, ab, fs);
      } else {
        ExecuteAppend(ctx, a[1..], b, g.fs);
        ExecuteStep(ctx, a, fs);
        ExecuteStep(ctx, ab, fs);
        var r1 := Execute(ctx, a[1..], g.fs);
        AppendAfterEvent(g.result.value, r1, Execute(ctx, a[1..] + b, g.fs), Execute(ctx, b, r1.fs));
      }
    }
  }

  lemma AppendAfterEvent(e: Event, r1: RunResult, rab: RunResult, rb: RunResult)
    requires rab == if r1.outcome.Threw? then r1 else RunResult(r1.events + rb.events, rb.fs, rb.outcome)
    ensures var ra := RunResult([e] + r1.events, r1.fs, r1.outcome);
            RunResult([e] + rab.events, rab.fs, rab.outcome)
              == if ra.outcome.Threw? then ra else RunResult(ra.events + rb.events, rb.fs, rb.outcome)
  {
    assert [e] + (r1.events + rb.events) == ([e] + r1.events) + rb.events;
  }

  /** A run's result with the invocations recorded before it put in front. */
  function Shift(t: seq<Event>, r: RunResult): RunResult {
    RunResult(t + r.events, r.fs, r.outcome)
  }

  /** One generator call on the state `r` of a run that has not thrown. */
  function Attempt(ctx: Context, job: Job, r: RunResult): RunResult {
    var g := GenerateDoc(ctx, job, r.fs);
    match g.result
    case Ok(e) => RunResult(r.events + [e], g.fs, Completed)
    case Err(f) => RunResult(r.events, g.fs, Threw(f))
  }

  /** `if (enabled) { generateXDoc(); }` inside `run`, where an earlier exception has already left `run`. */
  function Gated(ctx: Context, enabled: bool, job: Job, r: RunResult): RunResult {
    if !enabled || r.outcome.Threw? then r else Attempt(ctx, job, r)
  }

  /** One more gated job extends the run by that job, whatever happened before. */
  lemma GatedExtend(ctx: Context, done: seq<Job>, job: Job, fs: FileSystem, t: seq<Event>)
    ensures Gated(ctx, true, job, Shift(t, Execute(ctx, done, fs))) == Shift(t, Execute(ctx, done + [job], fs))
  {
    var r := Execute(ctx, done, fs);
    ExecuteAppend(ctx, done, [job], fs);
    if r.outcome.Completed? {
      AttemptAfterRun(ctx, job, r, t);
    }
  }

  /** Attempting one job after a run that completed is running that job on its own and appending it. */
  lemma AttemptAfterRun(ctx: Context, job: Job, r: RunResult, t: seq<Event>)
    requires r.outcome.Completed?
    ensures var rb := Execute(ctx, [job], r.fs);
            Attempt(ctx, job, Shift(t, r)) == Shift(t, RunResult(r.events + rb.events, rb.fs, rb.outcome))
  {
    ExecuteSingle(ctx, job, r.fs);
    var g := GenerateDoc(ctx, job, r.fs);
    if g.result.Ok? {
      assert t + (r.events + [g.result.value]) == (t + r.events) + [g.result.value];
    } else {
      assert r.events + [] == r.events;
    }
  }

  /** Running a single job is one attempt from an empty, completed run. */
  lemma ExecuteSingle(ctx: Context, job: Job, fs: FileSystem)
    ensures Execute(ctx, [job], fs) == Attempt(ctx, job, RunResult([], fs, Completed))
  {
    if GenerateDoc(ctx, job, fs).result.Ok? {
      ExecuteStep(ctx, [job], fs);
      assert [job][1..] == [];
    } else {
      ExecuteThrows(ctx, [job], fs);
    }
  }

  /**
   * The three gated calls of `run`, one after the other, do what `Execute`
   * does with the plan.
   */
  lemma GatedStagesExecutePlan(ctx: Context, o: Options, s: Settings, fs: FileSystem, t: seq<Event>)
    ensures Gated(ctx, o.conventions, JobFor(s, Conventions),
              Gated(ctx, o.spans, JobFor(s, Spans),
                Gated(ctx, o.metrics, JobFor(s, Metrics), RunResult(t, fs, Completed))))
            == Shift(t, Execute(ctx, Plan(o, s), fs))
  {
    var m := if o.metrics then [JobFor(s, Metrics)] else [];
    var sp := if o.spans then [JobFor(s, Spans)] else [];
    var c := if o.conventions then [JobFor(s, Conventions)] else [];
    assert Plan(o, s) == m + sp + c;
    assert RunResult(t, fs, Completed) == Shift(t, Execute(ctx, [], fs));
    GatedStep(ctx, o.metrics, JobFor(s, Metrics), [], fs, t);
    assert [] + m == m;
    GatedStep(ctx, o.spans, JobFor(s, Spans), m, fs, t);
    GatedStep(ctx, o.conventions, JobFor(s, Conventions), m + sp, fs, t);
  }

  /** A gated job extends the run by that job when its switch is on, and by nothing when it is off. */
  lemma GatedStep(ctx: Context, enabled: bool, job: Job, done: seq<Job>, fs: FileSystem, t: seq<Event>)
    ensures Gated(ctx, enabled, job, Shift(t, Execute(ctx, done, fs)))
            == Shift(t, Execute(ctx, done + (if enabled then [job] else []), fs))
  {
    if enabled {
      GatedExtend(ctx, done, job, fs, t);
    } else {
      assert done + [] == done;
    }
  }

  /** The command's configuration once picocli has bound the arguments. */
  datatype Config = Config(
    projectRoot: string, inclusionPattern: string, outputDir: Path,
    settings: Settings, templateFormat: string, options: Options)

  /**
   * `run`: the pattern's '/' become the platform separator, the format
   * switch is applied, and then the enabled document types are generated in
   * order.
   */
  function RunCommand(cfg: Config, separator: string, fs: FileSystem): (r: RunResult)
    ensures fs.dirs <= r.fs.dirs && r.fs.unwritable == fs.unwritable
    ensures r.fs.files == fs.files + OutputsOf(r.events)
    ensures WellFormed(fs) ==> WellFormed(r.fs)
  {
    var ctx := Context(cfg.projectRoot, ReplaceAll(cfg.inclusionPattern, "/", separator), cfg.outputDir);
    Execute(ctx, Plan(cfg.options, EffectiveSettings(cfg.templateFormat, cfg.settings)), fs)
  }

  lemma RunCommandUnfold(cfg: Config, separator: string, fs: FileSystem, ctx: Context, s: Settings)
    requires ctx == Context(cfg.projectRoot, ReplaceAll(cfg.inclusionPattern, "/", separator), cfg.outputDir)
    requires s == EffectiveSettings(cfg.templateFormat, cfg.settings)
    ensures RunCommand(cfg, separator, fs) == Execute(ctx, Plan(cfg.options, s), fs)
  {
  }

  /**
   * Every generator invocation of a run is for an enabled document type, in
   * the order metrics, spans, conventions, and receives the rewritten
   * pattern, the template after the format switch and the resolved output.
   */
  lemma RunInOrder(cfg: Config, separator: string, fs: FileSystem)
    ensures var r := RunCommand(cfg, separator, fs);
            var s := EffectiveSettings(cfg.templateFormat, cfg.settings);
            |r.events| <= 3
            && (forall i, j :: 0 <= i < j < |r.events| ==> Rank(r.events[i].kind) < Rank(r.events[j].kind))
            && (forall e :: e in r.events ==>
                  Enabled(cfg.options, e.kind)
                  && e.projectRoot == cfg.projectRoot
                  && e.inclusionPattern == ReplaceAll(cfg.inclusionPattern, "/", separator)
                  && e.template == TemplateOf(s, e.kind)
                  && e.output == ResolveOutputPath(cfg.outputDir, OutputOf(s, e.kind)))
  {
    var ctx := Context(cfg.projectRoot, ReplaceAll(cfg.inclusionPattern, "/", separator), cfg.outputDir);
    PlanRunInOrder(ctx, cfg.options, EffectiveSettings(cfg.templateFormat, cfg.settings), fs);
  }

  lemma PlanRunInOrder(ctx: Context, o: Options, s: Settings, fs: FileSystem)
    ensures var r := Execute(ctx, Plan(o, s), fs);
            |r.events| <= 3
            && (forall i, j :: 0 <= i < j < |r.events| ==> Rank(r.events[i].kind) < Rank(r.events[j].kind))
            && (forall e :: e in r.events ==>
                  Enabled(o, e.kind) && e == EventFor(ctx, JobFor(s, e.kind)))
  {
    ExecutePrefix(ctx, Plan(o, s), fs);
    PlanEventsEnabled(ctx, o, s, fs);
  }

  lemma PlanEventsEnabled(ctx: Context, o: Options, s: Settings, fs: FileSystem)
    ensures forall e :: e in Execute(ctx, Plan(o, s), fs).events ==>
              Enabled(o, e.kind) && e == EventFor(ctx, JobFor(s, e.kind))
  {
    var jobs := Plan(o, s);
    var r := Execute(ctx, jobs, fs);
    ExecutePrefix(ctx, jobs, fs);
    forall e | e in r.events
      ensures Enabled(o, e.kind) && e == EventFor(ctx, JobFor(s, e.kind))
    {
      var i :| 0 <= i < |r.events| && r.events[i] == e;
      var job := jobs[i];
      assert e == EventFor(ctx, job) && job == JobFor(s, job.kind);
      assert JobFor(s, e.kind) in jobs;
    }
  }

  /**
   * A run completes exactly when every enabled document type was generated;
   * when it throws, the exception names the resolved output of an enabled
   * document type that was not generated, and no later type was attempted.
   */
  lemma RunStopsAtFirstFailure(cfg: Config, separator: string, fs: FileSystem)
    ensures var r := RunCommand(cfg, separator, fs);
            var s := EffectiveSettings(cfg.templateFormat, cfg.settings);
            (r.outcome.Completed? <==> forall k :: Enabled(cfg.options, k) ==> exists e :: e in r.events && e.kind == k)
            && (r.outcome.Threw? ==>
                  exists k :: Enabled(cfg.options, k)
                    && r.outcome.failure.path == ResolveOutputPath(cfg.outputDir, OutputOf(s, k))
                    && forall e :: e in r.events ==> Rank(e.kind) < Rank(k))
            && (r.outcome.Threw? && r.outcome.failure.NotAFile? ==> r.outcome.failure.path in r.fs.dirs)
  {
    var ctx := Context(cfg.projectRoot, ReplaceAll(cfg.inclusionPattern, "/", separator), cfg.outputDir);
    var s := EffectiveSettings(cfg.templateFormat, cfg.settings);
    PlanStopsAtFirstFailure(ctx, cfg.options, s, fs);
    ExecutePrefix(ctx, Plan(cfg.options, s), fs);
  }

  lemma PlanStopsAtFirstFailure(ctx: Context, o: Options, s: Settings, fs: FileSystem)
    ensures var r := Execute(ctx, Plan(o, s), fs);
            (r.outcome.Completed? <==> forall k :: Enabled(o, k) ==> exists e :: e in r.events && e.kind == k)
            && (r.outcome.Threw? ==>
                  exists k :: Enabled(o, k)
                    && r.outcome.failure.path == ResolveOutputPath(ctx.outputDir, OutputOf(s, k))
                    && forall e :: e in r.events ==> Rank(e.kind) < Rank(k))
  {
    JobsStopAtFirstFailure(ctx, o, s, Plan(o, s), fs);
  }

  lemma JobsStopAtFirstFailure(ctx: Context, o: Options, s: Settings, jobs: seq<Job>, fs: FileSystem)
    requires forall i, j :: 0 <= i < j < |jobs| ==> Rank(jobs[i].kind) < Rank(jobs[j].kind)
    requires forall i :: 0 <= i < |jobs| ==> jobs[i] == JobFor(s, jobs[i].kind)
    requires forall k :: Enabled(o, k) <==> JobFor(s, k) in jobs
    ensures var r := Execute(ctx, jobs, fs);
            (r.outcome.Completed? <==> forall k :: Enabled(o, k) ==> exists e :: e in r.events && e.kind == k)
            && (r.outcome.Threw? ==>
                  exists k :: Enabled(o, k)
                    && r.outcome.failure.path == ResolveOutputPath(ctx.outputDir, OutputOf(s, k))
                    && forall e :: e in r.events ==> Rank(e.kind) < Rank(k))
  {
    var r := Execute(ctx, jobs, fs);
    ExecutePrefix(ctx, jobs, fs);
    if r.outcome.Completed? {
      forall k | Enabled(o, k)
        ensures exists e :: e in r.events && e.kind == k
      {
        var i :| 0 <= i < |jobs| && jobs[i] == JobFor(s, k);
        assert r.events[i] in r.events && r.events[i].kind == k;
      }
    } else {
      var n := |r.events|;
      var k := jobs[n].kind;
      assert jobs[n] == JobFor(s, k);
      assert Enabled(o, k);
      forall e | e in r.events
        ensures Rank(e.kind) < Rank(k)
      {
        var i :| 0 <= i < n && r.events[i] == e;
        assert e.kind == jobs[i].kind;
      }
      assert !exists e :: e in r.events && e.kind == k;
    }
  }

  /** With '/' as the platform separator, the generators receive the pattern exactly as given. */
  lemma SlashSeparatorKeepsPattern(cfg: Config, fs: FileSystem)
    ensures forall e :: e in RunCommand(cfg, "/", fs).events ==> e.inclusionPattern == cfg.inclusionPattern
  {
    ReplaceAllBySelf(cfg.inclusionPattern, "/");
    RunInOrder(cfg, "/", fs);
  }

  /** The generator invocations of a run in which no job throws. */
  function EventsFor(ctx: Context, jobs: seq<Job>): (r: seq<Event>)
    ensures |r| == |jobs| && forall i :: 0 <= i < |jobs| ==> r[i] == EventFor(ctx, jobs[i])
  {
    if jobs == [] then [] else [EventFor(ctx, jobs[0])] + EventsFor(ctx, jobs[1..])
  }

  /** The documents those invocations write. */
  function OutputsOf(events: seq<Event>): (r: set<Path>)
    ensures forall p :: p in r <==> exists e :: e in events && e.output == p
  {
    if events == [] then {} else {events[0].output} + OutputsOf(events[1..])
  }

  /** Generating into an output directory that exists: the document is written there. */
  lemma GenerateIntoExistingDir(ctx: Context, job: Job, fs: FileSystem)
    requires ctx.outputDir in fs.dirs
    requires LandsInOutputDir(ctx, job, fs)
    ensures GenerateDoc(ctx, job, fs)
            == Effect(Ok(EventFor(ctx, job)), fs.(files := fs.files + {ResolveOutputPath(ctx.outputDir, job.output)}))
  {
  }

  /**
   * When the output directory exists and every output lands directly in it
   * without being a directory itself, the run completes: every job's
   * generator runs and its document is written, and nothing else changes.
   */
  lemma {:induction false} ExecuteIntoExistingDir(ctx: Context, jobs: seq<Job>, fs: FileSystem)
    requires ctx.outputDir in fs.dirs
    requires forall j :: j in jobs ==> LandsInOutputDir(ctx, j, fs)
    ensures Execute(ctx, jobs, fs)
            == RunResult(EventsFor(ctx, jobs), fs.(files := fs.files + OutputsOf(EventsFor(ctx, jobs))), Completed)
    decreases |jobs|
  {
    if jobs != [] {
      assert jobs[0] in jobs;
      GenerateIntoExistingDir(ctx, jobs[0], fs);
      var fs1 := fs.(files := fs.files + {ResolveOutputPath(ctx.outputDir, jobs[0].output)});
      assert forall j :: j in jobs[1..] ==> j in jobs;
      ExecuteIntoExistingDir(ctx, jobs[1..], fs1);
      ExecuteStep(ctx, jobs, fs);
      EventsForCons(ctx, jobs);
    }
  }

  lemma EventsForCons(ctx: Context, jobs: seq<Job>)
    requires jobs != []
    ensures EventsFor(ctx, jobs) == [EventFor(ctx, jobs[0])] + EventsFor(ctx, jobs[1..])
    ensures OutputsOf(EventsFor(ctx, jobs))
            == {ResolveOutputPath(ctx.outputDir, jobs[0].output)} + OutputsOf(EventsFor(ctx, jobs[1..]))
  {
    var es := EventsFor(ctx, jobs);
    assert es[1..] == EventsFor(ctx, jobs[1..]);
  }

  /** Three jobs that do not throw: their three invocations and documents. */
  lemma EventsOfThree(ctx: Context, a: Job, b: Job, c: Job)
    ensures EventsFor(ctx, [a, b, c]) == [EventFor(ctx, a), EventFor(ctx, b), EventFor(ctx, c)]
    ensures OutputsOf(EventsFor(ctx, [a, b, c]))
            == {EventFor(ctx, a).output, EventFor(ctx, b).output, EventFor(ctx, c).output}
  {
    var es := EventsFor(ctx, [a, b, c]);
    assert es == [EventFor(ctx, a), EventFor(ctx, b), EventFor(ctx, c)];
    OutputsOfThree(EventFor(ctx, a), EventFor(ctx, b), EventFor(ctx, c));
  }

  lemma OutputsOfThree(x: Event, y: Event, z: Event)
    ensures OutputsOf([x, y, z]) == {x.output, y.output, z.output}
  {
    assert [x, y, z][1..] == [y, z] && [y, z][1..] == [z] && [z][1..] == [];
  }

  /** The jobs of the markdown format test's run. */
  lemma MarkdownDefaultJobs()
    ensures Plan(DefaultOptions, EffectiveSettings("md", DefaultSettings)) == [
              Job(Metrics, "templates/markdown/metrics.md.hbs", "_metrics.md"),
              Job(Spans, "templates/markdown/spans.md.hbs", "_spans.md"),
              Job(Conventions, "templates/markdown/conventions.md.hbs", "_conventions.md")]
  {
    MarkdownDefaults();
    PlanAllEnabled(FormatUpdated(DefaultSettings));
  }

  /** With every switch on, the plan is the three jobs in order. */
  lemma PlanAllEnabled(s: Settings)
    ensures Plan(DefaultOptions, s) == [JobFor(s, Metrics), JobFor(s, Spans), JobFor(s, Conventions)]
  {
  }

  /** A relative name is joined to a non-root output directory with one separator. */
  lemma RelativeNameResolved(outputDir: Path, name: Path)
    requires outputDir != [] && outputDir != "/" && name != [] && name[0] != '/'
    ensures ResolveOutputPath(outputDir, name) == outputDir + "/" + name
  {
  }

  lemma MetricsMarkdownOutputResolved()
    ensures ResolveOutputPath("./build/format", "_metrics.md") == "./build/format/_metrics.md"
  {
    assert "_metrics.md"[0] == '_';
    RelativeNameResolved("./build/format", "_metrics.md");
    MetricsMarkdownOutputJoin();
  }

  lemma MetricsMarkdownOutputJoin()
    ensures "./build/format" + "/" + "_metrics.md" == "./build/format/_metrics.md"
  {
  }

  lemma SpansMarkdownOutputResolved()
    ensures ResolveOutputPath("./build/format", "_spans.md") == "./build/format/_spans.md"
  {
    assert "_spans.md"[0] == '_';
    RelativeNameResolved("./build/format", "_spans.md");
    SpansMarkdownOutputJoin();
  }

  lemma SpansMarkdownOutputJoin()
    ensures "./build/format" + "/" + "_spans.md" == "./build/format/_spans.md"
  {
  }

  lemma ConventionsMarkdownOutputResolved()
    ensures ResolveOutputPath("./build/format", "_conventions.md") == "./build/format/_conventions.md"
  {
    assert "_conventions.md"[0] == '_';
    RelativeNameResolved("./build/format", "_conventions.md");
    ConventionsMarkdownOutputJoin();
  }

  lemma ConventionsMarkdownOutputJoin()
    ensures "./build/format" + "/" + "_conventions.md" == "./build/format/_conventions.md"
  {
  }

  /** Where the test's run writes: "./build/format", which exists along with "./build" and ".". */
  const FormatTestFs := FileSystem({"./build/format", "./build", "."}, {}, {})

  /** The document for `job` lands directly in the output directory, which holds no directory of that name. */
  predicate LandsInOutputDir(ctx: Context, job: Job, fs: FileSystem) {
    ResolveOutputPath(ctx.outputDir, job.output) !in fs.dirs
    && Parent(ResolveOutputPath(ctx.outputDir, job.output)) == Some(ctx.outputDir)
  }

  /** A single name lands directly in "./build/format", which is none of the test's three directories. */
  lemma NameLandsInBuildFormat(ctx: Context, job: Job)
    requires ctx.outputDir == "./build/format" && job.output != [] && '/' !in job.output
    ensures LandsInOutputDir(ctx, job, FormatTestFs)
  {
    assert forall j :: 0 <= j < |job.output| ==> job.output[j] != '/';
    OutputInOutputDir("./build/format", job.output);
    assert |ResolveOutputPath("./build/format", job.output)| > |"./build/format"| > |"./build"|;
  }

  /** The three generators of the test's run, with the resolved outputs left symbolic. */
  lemma MarkdownDefaultExecute(ctx: Context, m: Job, sp: Job, c: Job)
    requires ctx.outputDir == "./build/format"
    requires m.output == "_metrics.md" && sp.output == "_spans.md" && c.output == "_conventions.md"
    ensures Execute(ctx, [m, sp, c], FormatTestFs)
            == RunResult([EventFor(ctx, m), EventFor(ctx, sp), EventFor(ctx, c)],
                         FormatTestFs.(files := {EventFor(ctx, m).output, EventFor(ctx, sp).output, EventFor(ctx, c).output}),
                         Completed)
  {
    MarkdownNamesLand(ctx, m, sp, c);
    ExecuteIntoExistingDir(ctx, [m, sp, c], FormatTestFs);
    EventsOfThree(ctx, m, sp, c);
    assert FormatTestFs.files == {};
  }

  lemma MarkdownNamesLand(ctx: Context, m: Job, sp: Job, c: Job)
    requires ctx.outputDir == "./build/format"
    requires m.output == "_metrics.md" && sp.output == "_spans.md" && c.output == "_conventions.md"
    ensures forall j :: j in [m, sp, c] ==> LandsInOutputDir(ctx, j, FormatTestFs)
  {
    forall j | j in [m, sp, c] ensures LandsInOutputDir(ctx, j, FormatTestFs) {
      assert j == m || j == sp || j == c;
      assert j.output != [] && '/' !in j.output;
      NameLandsInBuildFormat(ctx, j);
    }
  }

  /**
   * The scenario of the markdown format test: all defaults, `--format md`,
   * output directory "./build/format" already present. The three generators
   * run in order with the markdown templates and `.md` outputs.
   */
  lemma MarkdownDefaultRun(projectRoot: string)
    ensures var cfg := Config(projectRoot, ".*", "./build/format", DefaultSettings, "md", DefaultOptions);
            var r := RunCommand(cfg, "/", FormatTestFs);
            r.outcome == Completed
            && r.events == [
                 Generated(Metrics, projectRoot, ".*", "templates/markdown/metrics.md.hbs", "./build/format/_metrics.md"),
                 Generated(Spans, projectRoot, ".*", "templates/markdown/spans.md.hbs", "./build/format/_spans.md"),
                 Generated(Conventions, projectRoot, ".*", "templates/markdown/conventions.md.hbs", "./build/format/_conventions.md")]
            && r.fs.files == {"./build/format/_metrics.md", "./build/format/_spans.md", "./build/format/_conventions.md"}
  {
    var cfg := Config(projectRoot, ".*", "./build/format", DefaultSettings, "md", DefaultOptions);
    var ctx := Context(projectRoot, ".*", "./build/format");
    var m := Job(Metrics, "templates/markdown/metrics.md.hbs", "_metrics.md");
    var sp := Job(Spans, "templates/markdown/spans.md.hbs", "_spans.md");
    var c := Job(Conventions, "templates/markdown/conventions.md.hbs", "_conventions.md");
    ReplaceAllBySelf(".*", "/");
    MarkdownDefaultJobs();
    RunCommandUnfold(cfg, "/", FormatTestFs, ctx, EffectiveSettings("md", DefaultSettings));
    MarkdownDefaultExecute(ctx, m, sp, c);
    MetricsMarkdownOutputResolved();
    SpansMarkdownOutputResolved();
    ConventionsMarkdownOutputResolved();
  }

  // ---------------------------------------------------------------------
  // The command object
  // ---------------------------------------------------------------------

  class DocsGeneratorCommand {
    var projectRoot: string
    var inclusionPattern: string
    var outputDir: Path
    var metricsTemplate: string
    var spansTemplate: string
    var conventionsTemplate: string
    var metricsOutput: Path
    var spansOutput: Path
    var conventionsOutput: Path
    var templateFormat: string
    const options: Options
    /** `File.separator` of the platform. */
    const separator: string
    /** The file system the command reads and writes. */
    var fs: FileSystem
    /** The generator invocations so far. */
    var trace: seq<Event>

    /** Every `Path` field is in the form `Paths.get` produces, and the file system is well formed. */
    ghost predicate Valid()
      reads this`outputDir, this`metricsOutput, this`spansOutput, this`conventionsOutput, this`fs
    {
      Normalized(outputDir) && Normalized(metricsOutput) && Normalized(spansOutput) && Normalized(conventionsOutput)
      && WellFormed(fs)
    }

    function CurrentSettings(): Settings
      reads this`metricsTemplate, this`spansTemplate, this`conventionsTemplate,
            this`metricsOutput, this`spansOutput, this`conventionsOutput
    {
      Settings(metricsTemplate, spansTemplate, conventionsTemplate, metricsOutput, spansOutput, conventionsOutput)
    }

    function CurrentConfig(): Config
      reads this`projectRoot, this`inclusionPattern, this`outputDir, this`templateFormat,
            this`metricsTemplate, this`spansTemplate, this`conventionsTemplate,
            this`metricsOutput, this`spansOutput, this`conventionsOutput
    {
      Config(projectRoot, inclusionPattern, outputDir, CurrentSettings(), templateFormat, options)
    }

    function CurrentContext(): Context
      reads this`projectRoot, this`inclusionPattern, this`outputDir
    {
      Context(projectRoot, inclusionPattern, outputDir)
    }

    /** The command as picocli leaves it: path arguments converted with `Paths.get`, nothing generated yet. */
    constructor (projectRoot: string, inclusionPattern: string, outputDir: string,
                 metricsTemplate: string, spansTemplate: string, conventionsTemplate: string,
                 metricsOutput: string, spansOutput: string, conventionsOutput: string,
                 templateFormat: string, options: Options, separator: string, fs: FileSystem)
      requires WellFormed(fs)
      ensures Valid()
      ensures CurrentConfig() == Config(Normalize(projectRoot), inclusionPattern, Normalize(outputDir),
                Settings(metricsTemplate, spansTemplate, conventionsTemplate,
                         Normalize(metricsOutput), Normalize(spansOutput), Normalize(conventionsOutput)),
                templateFormat, options)
      ensures this.separator == separator && this.fs == fs && trace == []
    {
      this.projectRoot := Normalize(projectRoot);
      this.inclusionPattern := inclusionPattern;
      this.outputDir := Normalize(outputDir);
      this.metricsTemplate := metricsTemplate;
      this.spansTemplate := spansTemplate;
      this.conventionsTemplate := conventionsTemplate;
      this.metricsOutput := Normalize(metricsOutput);
      this.spansOutput := Normalize(spansOutput);
      this.conventionsOutput := Normalize(conventionsOutput);
      this.templateFormat := templateFormat;
      this.options := options;
      this.separator := separator;
      this.fs := fs;
      this.trace := [];
    }

    /** `run`. */
    method Run() returns (outcome: Outcome)
      requires Valid()
      modifies this`inclusionPattern, this`metricsTemplate, this`spansTemplate, this`conventionsTemplate,
               this`metricsOutput, this`spansOutput, this`conventionsOutput, this`fs, this`trace
      ensures Valid()
      ensures CurrentConfig() == old(CurrentConfig()).(
                inclusionPattern := ReplaceAll(old(inclusionPattern), "/", separator),
                settings := EffectiveSettings(old(templateFormat), old(CurrentSettings())))
      ensures RunResult(trace, fs, outcome) == Shift(old(trace), RunCommand(old(CurrentConfig()), separator, old(fs)))
    {
      ghost var cfg := CurrentConfig();
      Configure();
      ghost var configured := CurrentConfig();
      RunCommandUnfold(cfg, separator, fs, CurrentContext(), CurrentSettings());
      outcome := GenerateEnabled();
      assert CurrentConfig() == configured;
    }

    /** The first half of `run`: the pattern takes the platform separator, then the format check. */
    method Configure()
      requires Valid()
      modifies this`inclusionPattern, this`metricsTemplate, this`spansTemplate, this`conventionsTemplate,
               this`metricsOutput, this`spansOutput, this`conventionsOutput
      ensures Valid()
      ensures CurrentConfig() == old(CurrentConfig()).(
                inclusionPattern := ReplaceAll(old(inclusionPattern), "/", separator),
                settings := EffectiveSettings(old(templateFormat), old(CurrentSettings())))
    {
      inclusionPattern := ReplaceAll(inclusionPattern, "/", separator);
      ApplyFormat();
    }

    /** The format check of `run`: only the "md" format rewrites the six settings. */
    method ApplyFormat()
      requires Valid()
      modifies this`metricsTemplate, this`spansTemplate, this`conventionsTemplate,
               this`metricsOutput, this`spansOutput, this`conventionsOutput
      ensures Valid()
      ensures CurrentSettings() == EffectiveSettings(templateFormat, old(CurrentSettings()))
    {
      if templateFormat == "md" {
        UpdateFormat();
      }
    }

    /** The tail of `run`: each enabled generator in turn, the first exception ending the run. */
    method GenerateEnabled() returns (outcome: Outcome)
      requires Valid()
      modifies this`fs, this`trace
      ensures Valid()
      ensures RunResult(trace, fs, outcome) == Shift(old(trace), Execute(CurrentContext(), Plan(options, CurrentSettings()), old(fs)))
    {
      ghost var ctx, s := CurrentContext(), CurrentSettings();
      GatedStagesExecutePlan(ctx, options, s, fs, trace);
      outcome := GenerateIfEnabled(options.metrics, Metrics, Completed);
      outcome := GenerateIfEnabled(options.spans, Spans, outcome);
      outcome := GenerateIfEnabled(options.conventions, Conventions, outcome);
    }

    /**
     * `if (enabled) { generateXDoc(); }` inside `run`; a `previous` exception
     * has already left `run`, so the generator is not reached.
     */
    method GenerateIfEnabled(enabled: bool, kind: DocKind, previous: Outcome) returns (outcome: Outcome)
      modifies this`fs, this`trace
      ensures RunResult(trace, fs, outcome)
              == Gated(CurrentContext(), enabled, JobFor(CurrentSettings(), kind), RunResult(old(trace), old(fs), previous))
    {
      if !enabled || previous.Threw? {
        return previous;
      }
      match kind
      case Metrics => outcome := GenerateMetricsDoc();
      case Spans => outcome := GenerateSpansDoc();
      case Conventions => outcome := GenerateConventionsDoc();
    }

    /** `updateFormat`: switch the templates and outputs from the asciidoc family to markdown. */
    method UpdateFormat()
      requires Valid()
      modifies this`metricsTemplate, this`spansTemplate, this`conventionsTemplate,
               this`metricsOutput, this`spansOutput, this`conventionsOutput
      ensures Valid()
      ensures CurrentSettings() == FormatUpdated(old(CurrentSettings()))
    {
      UpdateTemplates();
      UpdateOutputs();
    }
    /** The template half of `updateFormat`: "asciidoc" becomes "markdown", then ".adoc" becomes ".md". */
    method UpdateTemplates()
      modifies this`metricsTemplate, this`spansTemplate, this`conventionsTemplate
      ensures metricsTemplate == MarkdownTemplate(old(metricsTemplate))
      ensures spansTemplate == MarkdownTemplate(old(spansTemplate))
      ensures conventionsTemplate == MarkdownTemplate(old(conventionsTemplate))
    {
      metricsTemplate := ReplaceAll(ReplaceAll(metricsTemplate, "asciidoc", "markdown"), ".adoc", ".md");
      spansTemplate := ReplaceAll(ReplaceAll(spansTemplate, "asciidoc", "markdown"), ".adoc", ".md");
      conventionsTemplate := ReplaceAll(ReplaceAll(conventionsTemplate, "asciidoc", "markdown"), ".adoc", ".md");
    }

    /** The output half of `updateFormat`: ".adoc" becomes ".md" and the result goes through `Paths.get` again. */
    method UpdateOutputs()
      requires Normalized(metricsOutput) && Normalized(spansOutput) && Normalized(conventionsOutput)
      modifies this`metricsOutput, this`spansOutput, this`conventionsOutput
      ensures Normalized(metricsOutput) && Normalized(spansOutput) && Normalized(conventionsOutput)
      ensures metricsOutput == MarkdownOutput(old(metricsOutput))
      ensures spansOutput == MarkdownOutput(old(spansOutput))
      ensures conventionsOutput == MarkdownOutput(old(conventionsOutput))
    {
      spansOutput := Normalize(ReplaceAll(spansOutput, ".adoc", ".md"));
      metricsOutput := Normalize(ReplaceAll(metricsOutput, ".adoc", ".md"));
      conventionsOutput := Normalize(ReplaceAll(conventionsOutput, ".adoc", ".md"));
    }

    /** `generateMetricsDoc`. */
    method GenerateMetricsDoc() returns (outcome: Outcome)
      modifies this`fs, this`trace
      ensures RunResult(trace, fs, outcome)
              == Attempt(CurrentContext(), JobFor(CurrentSettings(), Metrics), RunResult(old(trace), old(fs), Completed))
    {
      outcome := GenerateOne(Metrics, metricsTemplate, metricsOutput);
    }

    /** `generateSpansDoc`. */
    method GenerateSpansDoc() returns (outcome: Outcome)
      modifies this`fs, this`trace
      ensures RunResult(trace, fs, outcome)
              == Attempt(CurrentContext(), JobFor(CurrentSettings(), Spans), RunResult(old(trace), old(fs), Completed))
    {
      outcome := GenerateOne(Spans, spansTemplate, spansOutput);
    }

    /** `generateConventionsDoc`. */
    method GenerateConventionsDoc() returns (outcome: Outcome)
      modifies this`fs, this`trace
      ensures RunResult(trace, fs, outcome)
              == Attempt(CurrentContext(), JobFor(CurrentSettings(), Conventions), RunResult(old(trace), old(fs), Completed))
    {
      outcome := GenerateOne(Conventions, conventionsTemplate, conventionsOutput);
    }

    /** The body shared by the three `generateXDoc` methods: prepare the output, then run the generator. */
    method GenerateOne(kind: DocKind, template: string, output: Path) returns (outcome: Outcome)
      modifies this`fs, this`trace
      ensures RunResult(trace, fs, outcome)
              == Attempt(CurrentContext(), Job(kind, template, output), RunResult(old(trace), old(fs), Completed))
    {
      ghost var p := PrepareOutputPath(outputDir, output, fs);
      var path := ResolveAndPrepareOutputPath(output);
      assert Effect(path, fs) == p;
      if path.Err? {
        return Threw(path.error);
      }
      InvokeGenerator(kind, template, path.value);
      outcome := Completed;
    }

    /** `new XDocGenerator(projectRoot, inclusionPattern, template, output).generate()`. */
    method InvokeGenerator(kind: DocKind, template: string, output: Path)
      modifies this`fs, this`trace
      ensures trace == old(trace) + [Generated(kind, projectRoot, inclusionPattern, template, output)]
      ensures fs == old(fs).(files := old(fs).files + {output})
    {
      trace := trace + [Generated(kind, projectRoot, inclusionPattern, template, output)];
      fs := fs.(files := fs.files + {output});
    }

    /** `resolveAndPrepareOutputPath`. */
    method ResolveAndPrepareOutputPath(specified: Path) returns (r: Result<Path, Failure>)
      modifies this`fs
      ensures Effect(r, fs) == PrepareOutputPath(outputDir, specified, old(fs))
    {
      var resolved := ResolveOutputPath(outputDir, specified);
      if resolved in fs.dirs {
        return Err(NotAFile(resolved));
      }
      var parent := Parent(resolved);
      if parent.None? {
        return Err(NoParent(resolved));
      }
      var created := CreateDirectories(fs, parent.value);
      fs := created.fs;
      if !created.ok {
        return Err(PrepareFailed(resolved));
      }
      r := Ok(resolved);
    }
  }
}
