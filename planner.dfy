/**
 * The planning half of `sanitizeAttachmentIfNeeded` (src/Sanitizer.php:63-68):
 * take the stored path apart as `pathinfo()` does, pass the stem through the
 * host's `sanitize_title()`, and when the two differ build the target path
 * `dirname/slug.extension`.
 */
module Planner {
  import opened Wrappers
  import opened PhpPath
  import PhpCompare

  /** WordPress's `sanitize_title()`, which this model does not interpret. */
  type Slugger = string -> string

  /**
   * The target path as the source interpolates it: the original 'dirname',
   * a slash, the slug, a dot and the original 'extension'. A missing key
   * interpolates as the empty string, so a path without an extension gets a
   * target ending in a bare dot.
   */
  function TargetPath(info: PathInfo, slug: string): string {
    Interpolate(info.dirname) + "/" + slug + "." + Interpolate(info.extension)
  }

  /**
   * The planner: the target path when the stem differs from its slug, and
   * nothing when the stem is already canonical. The comparison is byte by
   * byte, as the evidently intended `!==`.
   */
  function Plan(sanitizeTitle: Slugger, path: string): (p: Option<string>)
    ensures p.Some? <==> sanitizeTitle(Pathinfo(path).filename) != Pathinfo(path).filename
  {
    var info := Pathinfo(path);
    var slug := sanitizeTitle(info.filename);
    if slug != info.filename then Some(TargetPath(info, slug)) else None
  }

  /** The planner as written: the source compares with PHP's loose `!=` (src/Sanitizer.php:67). */
  function PlanAsWritten(sanitizeTitle: Slugger, path: string): (p: Option<string>)
    ensures p.Some? <==> !PhpCompare.LooseEquals(sanitizeTitle(Pathinfo(path).filename), Pathinfo(path).filename)
  {
    var info := Pathinfo(path);
    var slug := sanitizeTitle(info.filename);
    if !PhpCompare.LooseEquals(slug, info.filename) then Some(TargetPath(info, slug)) else None
  }

  /** The stem of the planned path: what `pathinfo()` calls 'filename'. */
  function Stem(path: string): string {
    Pathinfo(path).filename
  }

  /** The slug `sanitize_title()` gives for the stem of `path`. */
  function Slug(sanitizeTitle: Slugger, path: string): string {
    sanitizeTitle(Stem(path))
  }

  /**
   * `pathinfo()` of `d/f.x`, whatever `d` is, has basename `f.x`, filename `f`
   * and extension `x`, when `f` has no slash and `x` neither slash nor dot.
   */
  lemma {:induction false} PathinfoOfTarget(d: string, f: string, x: string)
    requires '/' !in f && '/' !in x && '.' !in x
    ensures var info := Pathinfo(d + "/" + f + "." + x);
      info.basename == f + "." + x && info.filename == f && info.extension == Some(x)
  {
    var base := f + "." + x;
    var path := d + "/" + f + "." + x;
    assert path == d + "/" + base;
    NoSlashInJoin(f, x);
    BasenameOfJoin(d, base);
    assert base == f + ['.'] + x;
    AfterLastOfJoin(f, '.', x);
    assert Extension(base) == Some(x);
    assert Filename(base) == f;
  }

  /**
   * The target path keeps the original directory and extension verbatim and
   * replaces only the stem: taken apart again by `pathinfo()` it has the slug
   * as its filename, the original extension (the empty one when there was
   * none) and, when the original had a directory, that same directory. This
   * needs only that the slug has no slash.
   */
  lemma PlannedTargetKeepsDirectoryAndExtension(sanitizeTitle: Slugger, path: string)
    requires Plan(sanitizeTitle, path).Some?
    requires '/' !in Slug(sanitizeTitle, path)
    ensures var info, target := Pathinfo(path), Plan(sanitizeTitle, path).value;
      Pathinfo(target).filename == Slug(sanitizeTitle, path) &&
      Pathinfo(target).extension == Some(Interpolate(info.extension)) &&
      (info.dirname.Some? ==> Pathinfo(target).dirname == info.dirname)
  {
    var info := Pathinfo(path);
    var slug := Slug(sanitizeTitle, path);
    var x := Interpolate(info.extension);
    PathinfoOfTarget(Interpolate(info.dirname), slug, x);
    if info.dirname.Some? {
      PathinfoOfJoin(info.dirname.value, slug, x);
    }
  }

  /**
   * Running the planner on its own target finds nothing more to do, provided
   * `sanitize_title()` leaves the slug as it is and the slug has no slash.
   * The idempotence of `sanitize_title()` is a hypothesis here, not a
   * property of the code.
   */
  lemma ReplanningTargetIsNoop(sanitizeTitle: Slugger, path: string)
    requires Plan(sanitizeTitle, path).Some?
    requires '/' !in Slug(sanitizeTitle, path)
    requires sanitizeTitle(Slug(sanitizeTitle, path)) == Slug(sanitizeTitle, path)
    ensures Plan(sanitizeTitle, Plan(sanitizeTitle, path).value).None?
  {
    PlannedTargetKeepsDirectoryAndExtension(sanitizeTitle, path);
  }

  /** The target differs from the path it was planned for, when the slug has no slash. */
  lemma TargetDiffersFromPath(sanitizeTitle: Slugger, path: string)
    requires Plan(sanitizeTitle, path).Some?
    requires '/' !in Slug(sanitizeTitle, path)
    ensures Plan(sanitizeTitle, path).value != path
  {
    PlannedTargetKeepsDirectoryAndExtension(sanitizeTitle, path);
  }

  /**
   * For a file `d/f.x` the plan is `d/slug.x`: the directory and the
   * extension are kept letter for letter (an upper-case extension stays
   * upper-case).
   */
  lemma PlanOfFileWithExtension(sanitizeTitle: Slugger, d: string, f: string, x: string)
    requires IsDirname(d) && '/' !in f && '/' !in x && '.' !in x
    ensures Plan(sanitizeTitle, d + "/" + f + "." + x) ==
      if sanitizeTitle(f) != f then Some(d + "/" + sanitizeTitle(f) + "." + x) else None
  {
    PathinfoOfJoin(d, f, x);
  }

  /**
   * For a file `d/f` without a dot the plan is `d/slug.` with a trailing
   * bare dot: the missing 'extension' key interpolates as the empty string.
   */
  lemma PlanOfFileWithoutExtension(sanitizeTitle: Slugger, d: string, f: string)
    requires IsDirname(d) && f != [] && '/' !in f && '.' !in f
    ensures Plan(sanitizeTitle, d + "/" + f) ==
      if sanitizeTitle(f) != f then Some(d + "/" + sanitizeTitle(f) + ".") else None
  {
    var path := d + "/" + f;
    BasenameOfJoin(d, f);
    DirnameOfJoin(d, f);
    var info := Pathinfo(path);
    assert info.dirname == Some(d) && info.extension == None && info.filename == f;
    TargetPathWithoutExtension(info, sanitizeTitle(f));
  }

  /** Interpolating a missing extension leaves the target path ending in a bare dot. */
  lemma TargetPathWithoutExtension(info: PathInfo, slug: string)
    requires info.dirname.Some? && info.extension.None?
    ensures TargetPath(info, slug) == info.dirname.value + "/" + slug + "."
  {
    assert Interpolate(info.extension) == [];
  }

  /** "Photo Beach.JPG" is planned to become "photo-beach.JPG" in the same directory. */
  lemma PhotoBeachExample(sanitizeTitle: Slugger, d: string)
    requires IsDirname(d) && sanitizeTitle("Photo Beach") == "photo-beach"
    ensures Plan(sanitizeTitle, d + "/" + "Photo Beach" + "." + "JPG") == Some(d + "/" + "photo-beach" + "." + "JPG")
  {
    assert '/' !in "Photo Beach" && '/' !in "JPG" && '.' !in "JPG";
    PlanOfFileWithExtension(sanitizeTitle, d, "Photo Beach", "JPG");
  }

  /** A stem that is already canonical, "my-file", gets no plan. */
  lemma CanonicalStemExample(sanitizeTitle: Slugger, d: string)
    requires IsDirname(d) && sanitizeTitle("my-file") == "my-file"
    ensures Plan(sanitizeTitle, d + "/" + "my-file" + "." + "pdf").None?
  {
    assert '/' !in "my-file" && '/' !in "pdf" && '.' !in "pdf";
    PlanOfFileWithExtension(sanitizeTitle, d, "my-file", "pdf");
  }

  /** "README", whose slug is "readme", is planned to become "readme." with a bare dot. */
  lemma BareDotExample(sanitizeTitle: Slugger, d: string)
    requires IsDirname(d) && sanitizeTitle("README") == "readme"
    ensures Plan(sanitizeTitle, d + "/" + "README") == Some(d + "/" + "readme" + ".")
  {
    assert '/' !in "README" && '.' !in "README";
    PlanOfFileWithoutExtension(sanitizeTitle, d, "README");
  }

  /** The two comparisons agree unless both the stem and its slug are numeric strings. */
  lemma AsWrittenAgreesUnlessNumeric(sanitizeTitle: Slugger, path: string)
    requires !PhpCompare.IsNumeric(Stem(path)) || !PhpCompare.IsNumeric(Slug(sanitizeTitle, path))
    ensures PlanAsWritten(sanitizeTitle, path) == Plan(sanitizeTitle, path)
  {
    PhpCompare.NonNumericIsStrict(Slug(sanitizeTitle, path), Stem(path));
  }

  /**
   * With the loose comparison a file "1E3.jpg", whose stem `sanitize_title()`
   * lower-cases to "1e3", is never renamed: PHP reads both as the number 1000.
   * The byte comparison plans "1e3.jpg" in the same directory.
   */
  lemma LooseComparisonSkipsNumericStem(sanitizeTitle: Slugger, d: string)
    requires IsDirname(d) && sanitizeTitle("1E3") == "1e3"
    ensures PlanAsWritten(sanitizeTitle, d + "/" + "1E3" + "." + "jpg").None?
    ensures Plan(sanitizeTitle, d + "/" + "1E3" + "." + "jpg") == Some(d + "/" + "1e3" + "." + "jpg")
  {
    assert '/' !in "1E3" && '/' !in "jpg" && '.' !in "jpg";
    PlanOfFileWithExtension(sanitizeTitle, d, "1E3", "jpg");
    PathinfoOfJoin(d, "1E3", "jpg");
    PhpCompare.ExponentCaseIsLooselyEqual();
    PhpCompare.LooseEqualsSymmetric("1E3", "1e3");
  }
}
