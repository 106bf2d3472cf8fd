# wpcli-sanitizer in Dafny

A verified model of the WP-CLI command `wp sanitize` (class `Sanitizer`,
`src/Sanitizer.php`). `command.php` registers it under that name; the
class's doc comment shows it as `wp media ct-sanitize`.

The command walks over every attachment of a WordPress site. For each one it takes the stored path apart as PHP's
`pathinfo()` does, and passes the stem (the 'filename' key) through
`sanitize_title()`. When the slug differs from the stem, it does five
things in this order:

- points the attachment record at `dirname/slug.extension`;
- regenerates and stores the attachment metadata;
- renames the file on disk;
- replaces the old attachment URL with the new one in `wp_posts`;
- prints a line.

A failed record update or a failed rename is reported and does not stop
anything. At the end the command prints how many attachments it sanitized.

The project has three layers.

- **Pure functions.** `PhpPath` is `pathinfo()`, `dirname()` and `basename()` as
  the Zend engine computes them, plus PHP's interpolation of a missing array
  key. `PhpCompare` is PHP 8's loose `!=` between strings. `SearchReplace`
  covers the substitution and the shell command line that carries it.
  `Planner` covers the slug comparison and the target path.
- **The pass as functions on an abstract site.** In `Reconcile`, `World`
  holds the attachment records, the metadata, the set of files on disk, the
  post content and the log of effects and printed lines. `Host` holds the
  WordPress functions the command calls, uninterpreted. `Sanitize` is one
  attachment and `Run` is the loop. `Batch` proves what the loop promises.
- **The command as an imperative class.** `Sanitizer.Site` keeps the site in
  fields that its methods update in place. Each WordPress call is a method.
  `update_attached_file()` and `rename()` succeed or fail
  nondeterministically. `SanitizeAttachmentIfNeeded` and `Invoke` are proved
  to follow `Sanitize` and `Run` step by step. The host's answers appear as
  ghost out-parameters of type `Outcome`.

The model compares the stem with its slug byte by byte, as `!==` would, and
passes the two URLs to the substitution as two separate strings. The code as
written does neither; both differences are under "## Findings".

## Model

| member | source | states |
|---|---|---|
| PhpPath.Basename | src/Sanitizer.php:63 | the 'basename' key of `pathinfo()` never contains a slash |
| PhpPath.Dirname | src/Sanitizer.php:63 | the 'dirname' key is absent exactly for the empty path; otherwise it is "/" or a non-empty string that does not end in a slash |
| PhpPath.Extension | src/Sanitizer.php:63 | the 'extension' key is absent exactly when the basename has no dot; otherwise it is a suffix of the basename that has no dot |
| PhpPath.Filename | src/Sanitizer.php:63 | the 'filename' key is a prefix of the basename: all of it without an extension, and otherwise the part before `.extension` |
| PhpPath.PathinfoParts | src/Sanitizer.php:63 | the keys of `pathinfo()` fit together: basename = filename + "." + extension (or just filename when there is no extension); the extension has no dot or slash; the filename has no slash |
| PhpPath.BasenameOfJoin | src/Sanitizer.php:63 | the basename of `d/b` is `b` when `b` is non-empty and has no slash |
| PhpPath.DirnameOfJoin | src/Sanitizer.php:63 | the dirname of `d/b` is `d` when `d` is a dirname and `b` is non-empty and has no slash |
| PhpPath.PathinfoOfJoin | src/Sanitizer.php:63 | `pathinfo()` takes `d/f.x` apart into exactly dirname `d`, basename `f.x`, filename `f` and extension `x` |
| PhpCompare.StrictImpliesLoose | src/Sanitizer.php:67 | strings that are equal byte by byte are loosely equal |
| PhpCompare.NonNumericIsStrict | src/Sanitizer.php:67 | when either operand is not a numeric string, `==` is the byte comparison, in both directions |
| PhpCompare.LooseEqualsSymmetric | src/Sanitizer.php:67 | the loose comparison does not depend on the order of its operands |
| PhpCompare.OneThousand | src/Sanitizer.php:67 | "1e3" and "1E3" both parse as the number 1 × 10^3 |
| PhpCompare.ExponentCaseIsLooselyEqual | src/Sanitizer.php:67 | "1E3" and "1e3" differ as strings and are equal under `==` |
| Planner.Plan | src/Sanitizer.php:63-68 | there is a target exactly when the slug of the stem differs from the stem |
| Planner.PlanAsWritten | src/Sanitizer.php:63-68 | with the loose `!=` as written, there is a target exactly when the slug and the stem are not loosely equal |
| Planner.PathinfoOfTarget | src/Sanitizer.php:68 | `pathinfo()` of `d/f.x` has basename `f.x`, filename `f` and extension `x`, whatever `d` is |
| Planner.PlannedTargetKeepsDirectoryAndExtension | src/Sanitizer.php:63-68 | when the slug has no slash: taken apart again, the target has the slug as its filename, the original extension (empty when there was none) and the original dirname |
| Planner.ReplanningTargetIsNoop | src/Sanitizer.php:63-68 | when the slug has no slash and `sanitize_title()` leaves the slug unchanged (assumptions about the host, not code behaviour), planning the target again finds nothing to do |
| Planner.TargetDiffersFromPath | src/Sanitizer.php:63-68 | when the slug has no slash, a planned target never equals the path it was planned for |
| Planner.PlanOfFileWithExtension | src/Sanitizer.php:63-68 | the plan for `d/f.x` is `d/slug.x` when `slug != f`, and nothing otherwise; directory and extension are kept letter for letter |
| Planner.PlanOfFileWithoutExtension | src/Sanitizer.php:63-68 | the plan for `d/f` (no dot) is `d/slug.` with a bare trailing dot when `slug != f`, and nothing otherwise |
| Planner.TargetPathWithoutExtension | src/Sanitizer.php:68 | without an extension, the target path is `dirname/slug.` |
| Planner.PhotoBeachExample | src/Sanitizer.php:63-68 | "Photo Beach.JPG" with slug "photo-beach" is planned to become "photo-beach.JPG" in the same directory |
| Planner.CanonicalStemExample | src/Sanitizer.php:67 | "my-file.pdf", whose stem is its own slug, gets no plan |
| Planner.BareDotExample | src/Sanitizer.php:68 | "README" with slug "readme" is planned to become "readme." |
| Planner.AsWrittenAgreesUnlessNumeric | src/Sanitizer.php:67 | the loose and the strict comparison plan the same unless both the stem and its slug are numeric strings |
| Planner.LooseComparisonSkipsNumericStem | src/Sanitizer.php:67 | for "1E3.jpg" with slug "1e3", the code as written plans nothing, while the byte comparison plans "1e3.jpg" |
| SearchReplace.ReplaceWithItself | src/Sanitizer.php:95-98 | replacing a URL with itself leaves the content as it was |
| SearchReplace.ReplaceAbsent | src/Sanitizer.php:95-98 | content in which the old URL does not occur is left as it was |
| SearchReplace.ReplaceWhole | src/Sanitizer.php:95-98 | content that is exactly the old URL becomes exactly the new one |
| SearchReplace.CommandWords | src/Sanitizer.php:97 | the command line splits into the command name, the words of each URL, the table and the flag |
| SearchReplace.CommandArguments | src/Sanitizer.php:97 | the positional arguments of the command line are the command name, the positional words of each URL, and the table |
| SearchReplace.AsWrittenAgreesOnPlainWords | src/Sanitizer.php:97 | when both URLs are single words, the command as written replaces the old URL with the new one |
| SearchReplace.BlankSplitsOldUrl | src/Sanitizer.php:97 | an old URL `a b` reaches search-replace as two arguments, `a` and `b` |
| SearchReplace.SpaceSplitsOldUrl | src/Sanitizer.php:97 | for old URL "a b" and new URL "a-b", search-replace is asked to replace "a" with "b" |
| SearchReplace.SpaceManglesContent | src/Sanitizer.php:97 | the content "x a b" should become "x a-b", but the command as written makes it "x b b" |
| Reconcile.Sanitize | src/Sanitizer.php:60-83 | a call that reports no change leaves the world exactly as it was |
| Reconcile.Loop | src/Sanitizer.php:30-34 | the loop gives one result per attachment |
| Reconcile.Run | src/Sanitizer.php:28-34 | the pass gives one result per attachment |
| Reconcile.ChangeBySteps | src/Sanitizer.php:69-79 | the change path is these steps in source order: record update, metadata, rename, then a substitution from the URL read before the update to the URL read after the rename, then the "Sanitized:" line with the stem |
| Reconcile.ChangeEventsInclude | src/Sanitizer.php:70-75 | the log of a change contains the update and the rename, and an error for each of them that failed |
| Reconcile.SanitizePlanned | src/Sanitizer.php:67-79 | a path with a plan goes down the change path, with the planned target, and returns true |
| Reconcile.CanonicalStemChangesNothing | src/Sanitizer.php:66-82 | when the stem is its own slug, the call returns false and does nothing: no record update, metadata write, rename, substitution or printed line |
| Reconcile.EffectsInOrder | src/Sanitizer.php:70-77 | the change path only appends to the log; its effects are exactly: record update, metadata write, rename, substitution; its errors are exactly one per failed update and then one per failed rename |
| Reconcile.FilterChangeEvents | src/Sanitizer.php:70-78 | the effects and the errors among the events of one change, in order |
| Reconcile.UpdateFailureIsNotFatal | src/Sanitizer.php:70-79 | after a failed `update_attached_file()`: the error carries the ID; the metadata is written; the rename is attempted; the record is unchanged; the content is unchanged (both URLs are the same); the call returns true |
| Reconcile.UpdateFailureInChange | src/Sanitizer.php:70-77 | the same facts, on the change path |
| Reconcile.RenameFailureKeepsRecordUpdate | src/Sanitizer.php:70-75 | after a failed rename the error carries both paths, the record points at the target, and the files stay where they were |
| Reconcile.RenameFailureInChange | src/Sanitizer.php:88-93 | the same facts, on the change path |
| Reconcile.SuccessfulChangeIsConsistent | src/Sanitizer.php:62-77 | when both calls succeed and the slug has no slash: the record holds the target; the file is at the target and not at the old path; the content has the URL read before the update replaced with the URL read after it |
| Reconcile.SuccessInChange | src/Sanitizer.php:70-77 | the same facts, on the change path |
| Reconcile.SanitizeKeepsOtherRecords | src/Sanitizer.php:70 | sanitizing one attachment leaves every other attachment's record as it was |
| Batch.CountTrueBound | src/Sanitizer.php:33 | the counter never exceeds the number of results |
| Batch.LoopKeepsUnvisited | src/Sanitizer.php:30-34 | a loop whose visits leave other records alone leaves the record of an unvisited attachment alone |
| Batch.VisitKeepsOtherRecords | src/Sanitizer.php:31-32 | one pass of the loop leaves every other attachment's record as it was |
| Batch.RunKeepsUnvisitedRecords | src/Sanitizer.php:30-34 | the pass leaves the record of an attachment it does not visit as it was |
| Batch.LoopSnoc | src/Sanitizer.php:30-34 | a loop over one more attachment is the loop over the others followed by one visit from the world they left |
| Batch.RunSnoc | src/Sanitizer.php:30-34 | a pass over one more attachment is the pass over the others followed by one call |
| Batch.RunPrefixStep | src/Sanitizer.php:30-33 | the pass over the first i + 1 attachments has one more result than the pass over the first i, and ends in the world that result's visit left |
| Batch.RunStep | src/Sanitizer.php:33 | after one more visit the counter grows by one exactly when the visit returned true |
| Batch.CountTrueSnoc | src/Sanitizer.php:33 | one more result adds one to the count exactly when it is true |
| Batch.SanitizeReportsPlan | src/Sanitizer.php:66-82 | a call returns true exactly when its path has a plan, whatever the host calls answer |
| Batch.RunResultsSnoc | src/Sanitizer.php:30-33 | the last result of a pass is the verdict on the last attachment's path at the start, when the earlier visits did not touch that path |
| Batch.RunReports | src/Sanitizer.php:28-34 | over distinct attachments, the results are, in query order, whether each stem differed from its slug when the pass started |
| Batch.RunVisitsEachOnce | src/Sanitizer.php:28-34 | the i-th result is about the i-th attachment of the query, judged on its path at the start of the pass |
| Batch.RunCount | src/Sanitizer.php:28-35 | the final count is the number of attachments whose stem differed from its slug, and it never exceeds the number of attachments |
| Batch.RunCountBound | src/Sanitizer.php:28-35 | the count never exceeds the number of attachments, even when an ID is listed twice |
| Batch.CountIgnoresFailures | src/Sanitizer.php:33 | two passes over the same distinct attachments count the same, whatever the host calls answered |
| Sanitizer.Site.constructor | src/Sanitizer.php:14 | the command starts on the given site and host |
| Sanitizer.Site.UpdateAttachedFile | src/Sanitizer.php:70 | the record holds the new path exactly when the call answers true; only the record and the log change |
| Sanitizer.Site.UpdateRecord | src/Sanitizer.php:70-72 | the site afterwards is the record-update step: the path is stored when accepted, and a refusal is logged with the ID |
| Sanitizer.Site.Say | src/Sanitizer.php:71 | printing a line appends it to the log and changes nothing else |
| Sanitizer.Site.UpdateAttachmentMetadata | src/Sanitizer.php:74 | the attachment's metadata is replaced and the write is logged |
| Sanitizer.Site.Rename | src/Sanitizer.php:90 | a rename that answers true had a file to move, and moved it; one that answers false changes no file |
| Sanitizer.Site.RenameFile | src/Sanitizer.php:88-93 | the site afterwards is the rename step: the file is moved when the rename succeeds, and a failure is logged with both paths |
| Sanitizer.Site.ReplacePostContents | src/Sanitizer.php:95-98 | every occurrence of the old URL in the post content becomes the new URL |
| Sanitizer.Site.SanitizeAttachmentIfNeeded | src/Sanitizer.php:60-83 | the result and the new site are those of `Reconcile.Sanitize` for the answers the host gave |
| Sanitizer.Site.VisitAttachment | src/Sanitizer.php:31-32 | one pass of the loop reads the stored path and sanitizes it, as `Reconcile.Visit` |
| Sanitizer.Site.VisitNext | src/Sanitizer.php:30-33 | after one more pass the run over one more attachment has the visit's answer as its last result and leaves the site as it is now |
| Sanitizer.Site.SanitizeAll | src/Sanitizer.php:29-34 | the loop leaves the site as `Reconcile.Run` does, and its counter is the number of calls that returned true |
| Sanitizer.Site.Invoke | src/Sanitizer.php:26-36 | the command leaves the site as `Reconcile.Run` does, then prints the count of calls that returned true |

## Left out

- `command.php` only registers the command with WP-CLI; it holds no logic.
- `getAttachmentPosts` (src/Sanitizer.php:43-52) is a database query. The
  attachment IDs it returns are the `posts` argument. As in the code, each
  path is read with `get_attached_file()` during the loop.
- The internals of `sanitize_title()`, `wp_get_attachment_url()` and
  `wp_generate_attachment_metadata()` are not modelled. They are the fields
  of `Reconcile.Host`, uninterpreted functions. `wp_update_attachment_metadata()`
  stores the array, and its return value is ignored, as in the code.
- The `search-replace` subcommand is modelled as a replacement of every
  occurrence in one string, the post content.
  - Not modelled: its treatment of serialized data, its `--verbose` report,
    and tables other than `wp_posts`.
  - Not modelled: `WP_CLI::runcommand()` halting the whole command when the
    subcommand fails (its default), and any shell characters other than
    blanks.
- Console output is a log of `Event` values, not text. The exact wording of
  the messages and the `success` line is not modelled.
- Renaming is modelled only as success or failure, and a missing file is
  never moved. Permissions, collisions and overwriting an existing target
  are not modelled.
- PhpCompare.LooseEquals compares two numeric strings by their exact decimal
  value. PHP 8's string `==` first turns each numeric string into a 64-bit
  integer or a double, and then picks one of these cases. The model matches
  only the first two:
  - Two integer strings that fit in a 64-bit integer are compared as
    integers. The model agrees.
  - An integer string beyond 64 bits against an integer string within them
    is never equal. The model agrees, since the exact values differ.
  - Otherwise, when either side is a float string or overflows 64 bits,
    PHP compares the two doubles, except in the last two cases below. Two strings that differ beyond
    double precision are equal in PHP but not in the model. So are two
    strings that both underflow to 0.0: PHP calls `"1e-400"` and `"2e-400"`
    equal, the model does not.
  - Two integer strings that both overflow to the same side, with equal
    doubles, are compared byte by byte. The model calls
    `" 10000000000000000000"` and `"10000000000000000000"` equal where PHP
    finds them different.
  - Two float strings whose doubles are equal and infinite are also
    compared byte by byte. The model calls `"1E400"` and `"1e400"` equal
    where PHP finds them different, so PHP renames `1E400.jpg` to
    `1e400.jpg` and Planner.PlanAsWritten plans nothing for it.
  So for numeric stems whose value lies outside a double's range or
  precision, Planner.PlanAsWritten can differ from the code in either
  direction. The corrected Planner.Plan compares bytes and is not affected.
- Planner.PlanAsWritten: inherits the gaps of PhpCompare.LooseEquals above.
  For a stem such as `1E400` with slug `1e400` it plans nothing where the
  code renames the file. For other numeric stems outside a double's range
  or precision it can differ from the code in either direction.
- PhpPath handles only `/` as a separator. It does not model multibyte or
  locale effects in `basename()`.
- Batch.RunVisitsEachOnce, Batch.RunReports, Batch.RunCount and
  Batch.CountIgnoresFailures: they require the attachment IDs to be distinct,
  as the IDs of a post query are. With a repeated ID only Batch.RunCountBound
  is stated. The count then does depend on the host's answers: after a
  successful update, the second visit reads the new path and may find nothing
  to do. After a failed one, it reads the old path and counts again.
- Planner.ReplanningTargetIsNoop: it holds only under the hypothesis that
  `sanitize_title()` maps a slug to itself. That is not a property of the
  code.
- Planner.PlannedTargetKeepsDirectoryAndExtension, Planner.TargetDiffersFromPath,
  Planner.ReplanningTargetIsNoop, Reconcile.SuccessfulChangeIsConsistent: they
  assume the slug has no slash. WordPress's own `sanitize_title()` strips `/`,
  but the model leaves that function uninterpreted. A slug with a slash can
  take the target into another directory, or back onto the original path.
- The returned count includes attachments whose record update or rename
  failed, because line 79 returns true after a failure. The model follows
  the code.
- A two-phase variant of the command (plan everything, then apply) is not
  part of this model.

## Findings

| source | as written | input that shows it | evidently intended | confidence | as-written member | corrected member |
|---|---|---|---|---|---|---|
| src/Sanitizer.php:67 | `$sanitizedFilename != $attachmentPathInfo['filename']` uses PHP's loose comparison, which compares two numeric strings as numbers | a file `1E3.jpg` whose slug is `1e3`: both read as 1000, so the file is never renamed | a byte comparison (`!==`): plan `1e3.jpg` | not executed | Planner.LooseComparisonSkipsNumericStem | Planner.Plan |
| src/Sanitizer.php:97 | the two URLs are pasted unquoted into the `search-replace` command line, which is split at blanks | old URL `a b`, new URL `a-b`: search-replace replaces `a` with `b`, so the content `x a b` becomes `x b b` | each URL passed as one argument: `x a b` becomes `x a-b` | not executed | SearchReplace.SpaceManglesContent | SearchReplace.ReplacePostContents |
