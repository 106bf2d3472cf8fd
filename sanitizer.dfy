/**
 * The command object of src/Sanitizer.php as an imperative class: the site it
 * works on is a set of fields the methods update in place, each WordPress call
 * is a method whose contract ties the new state to a step of module Reconcile,
 * and `Invoke` is the batch loop of `__invoke`, proved to compute `Run`.
 */
module Sanitizer {
  import opened PhpPath
  import opened Planner
  import opened Reconcile
  import Batch
  import SearchReplace

  class Site {
    /** The WordPress functions the command calls and this model does not interpret. */
    const host: Host
    /** The attached file of each attachment ID. */
    var records: map<int, string>
    /** The attachment metadata of each attachment ID. */
    var metadata: map<int, Metadata>
    /** The paths at which a file exists on disk. */
    var files: set<string>
    /** The text of the `wp_posts` table. */
    var content: string
    /** The console output and the host calls, in order. */
    var log: seq<Event>

    /** The fields as one value of the functional model. */
    function State(): World
      reads this
    {
      World(records, metadata, files, content, log)
    }

    constructor (host: Host, w: World)
      ensures this.host == host && State() == w
    {
      this.host := host;
      records, metadata, files, content, log := w.records, w.metadata, w.files, w.content, w.log;
    }

    /** `get_attached_file()`: the stored path, or the empty string for `false`. */
    method GetAttachedFile(id: int) returns (path: string)
      ensures id in records ==> path == records[id]
      ensures id !in records ==> path == ""
    {
      path := if id in records then records[id] else "";
    }

    /** `wp_get_attachment_url()`, from the ID and its attached file as it is now. */
    method AttachmentUrl(id: int) returns (url: string)
      ensures url == Url(host, State(), id)
    {
      var path := GetAttachedFile(id);
      url := host.attachmentUrl(id, path);
    }

    /** `update_attached_file()`: stores the path when the host accepts it; its answer is not known in advance. */
    method UpdateAttachedFile(id: int, path: string) returns (ok: bool)
      modifies this
      ensures records == (if ok then old(records)[id := path] else old(records))
      ensures log == old(log) + [Event.UpdateAttachedFile(id, path, ok)]
      ensures metadata == old(metadata) && files == old(files) && content == old(content)
    {
      ok := *;
      if ok {
        records := records[id := path];
      }
      log := log + [Event.UpdateAttachedFile(id, path, ok)];
    }

    /**
     * Lines 70-72 of src/Sanitizer.php: store the target path and report a
     * refusal with the attachment ID, without stopping.
     */
    method UpdateRecord(id: int, target: string) returns (ok: bool)
      modifies this
      ensures State() == UpdateStep(old(State()), id, target, ok)
    {
      ok := UpdateAttachedFile(id, target);
      if !ok {
        Say(UpdateFailedError(id));
        assert log == old(log) + ([Event.UpdateAttachedFile(id, target, ok)] + [UpdateFailedError(id)]);
      } else {
        assert log == old(log) + ([Event.UpdateAttachedFile(id, target, ok)] + []);
      }
    }

    /** `WP_CLI::error(…, false)` and `WP_CLI::line()`: print a line and carry on. */
    method Say(e: Event)
      modifies this
      ensures State() == old(State()).(log := old(log) + [e])
    {
      log := log + [e];
    }

    /** `wp_generate_attachment_metadata()`, which reads the files on disk. */
    method GenerateAttachmentMetadata(id: int, path: string) returns (meta: Metadata)
      ensures meta == host.generateMetadata(id, path, files)
    {
      meta := host.generateMetadata(id, path, files);
    }

    /** `wp_update_attachment_metadata()`. */
    method UpdateAttachmentMetadata(id: int, meta: Metadata)
      modifies this
      ensures State() == old(State()).(metadata := old(metadata)[id := meta], log := old(log) + [Event.UpdateAttachmentMetadata(id, meta)])
    {
      metadata := metadata[id := meta];
      log := log + [Event.UpdateAttachmentMetadata(id, meta)];
    }

    /**
     * PHP's `rename()`: the file system may refuse, whatever the reason, and a
     * file that is not there is never moved.
     */
    method Rename(from: string, to: string) returns (ok: bool)
      modifies this
      ensures ok ==> from in old(files)
      ensures files == (if ok then old(files) - {from} + {to} else old(files))
      ensures log == old(log) + [Event.Rename(from, to, ok)]
      ensures records == old(records) && metadata == old(metadata) && content == old(content)
    {
      ok := *;
      ok := ok && from in files;
      if ok {
        files := files - {from} + {to};
      }
      log := log + [Event.Rename(from, to, ok)];
    }

    /**
     * `renameFile` (src/Sanitizer.php:88-93): rename, and report a failure
     * without undoing anything. `answer` is what the file system answered.
     */
    method RenameFile(from: string, to: string) returns (ghost answer: bool)
      modifies this
      ensures State() == RenameStep(old(State()), from, to, answer)
    {
      var ok := Rename(from, to);
      if !ok {
        Say(RenameFailedError(from, to));
      }
      answer := ok;
    }

    /** `replacePostContents` (src/Sanitizer.php:95-98): the `search-replace` command on `wp_posts`. */
    method ReplacePostContents(oldUrl: string, newUrl: string)
      modifies this
      ensures State() == ReplaceStep(old(State()), oldUrl, newUrl)
    {
      content := SearchReplace.ReplacePostContents(content, oldUrl, newUrl);
      log := log + [ReplaceContents(oldUrl, newUrl)];
    }

    /**
     * `sanitizeAttachmentIfNeeded` (src/Sanitizer.php:60-83). `outcome` records
     * what the two fallible host calls answered; the result and the new state
     * are those of `Sanitize` for that outcome.
     */
    method SanitizeAttachmentIfNeeded(id: int, attachment: string) returns (sanitized: bool, ghost outcome: Outcome)
      modifies this
      ensures (sanitized, State()) == Sanitize(host, old(State()), id, attachment, outcome)
    {
      ghost var w0 := State();
      var url := AttachmentUrl(id);
      var info := Pathinfo(attachment);
      var slug := host.sanitizeTitle(info.filename);
      if slug != info.filename {
        var target := TargetPath(info, slug);
        var updated := UpdateRecord(id, target);
        ghost var w1 := State();
        var meta := GenerateAttachmentMetadata(id, target);
        UpdateAttachmentMetadata(id, meta);
        ghost var w2 := State();
        assert w2 == MetadataStep(host, w1, id, target);
        ghost var answer := RenameFile(attachment, target);
        ghost var w3 := State();
        var newUrl := AttachmentUrl(id);
        ReplacePostContents(url, newUrl);
        Say(SanitizedLine(info.filename));
        sanitized, outcome := true, Outcome(updated, answer);
        ChangeBySteps(host, w0, id, attachment, target, info.filename, outcome);
      } else {
        sanitized, outcome := false, Outcome(true, true);
      }
    }

    /**
     * One pass of the loop of `__invoke` (src/Sanitizer.php:30-31): read the
     * path stored for the attachment now and sanitize it.
     */
    method VisitAttachment(id: int) returns (wasSanitized: bool, ghost outcome: Outcome)
      modifies this
      ensures (wasSanitized, State()) == Visit(host, old(State()), id, outcome)
    {
      var attachment := GetAttachedFile(id);
      wasSanitized, outcome := SanitizeAttachmentIfNeeded(id, attachment);
    }

    /**
     * Pass `i` of the loop of `__invoke` (src/Sanitizer.php:30-33): from the
     * site the first `i` passes left, visit `posts[i]`; the run over the first
     * `i + 1` attachments then has the visit's answer as its last result and
     * leaves the site as it is now.
     */
    method VisitNext(ghost w0: World, posts: seq<int>, i: nat, ghost outs: seq<Outcome>) returns (wasSanitized: bool, ghost o: Outcome)
      requires i < |posts| && |outs| == i
      requires State() == Run(host, w0, posts[..i], outs).1
      modifies this
      ensures Run(host, w0, posts[..i + 1], outs + [o]) == (Run(host, w0, posts[..i], outs).0 + [wasSanitized], State())
    {
      wasSanitized, o := VisitAttachment(posts[i]);
      Batch.RunPrefixStep(host, w0, posts, i, outs, o, wasSanitized, State());
    }

    /**
     * The loop of `__invoke` (src/Sanitizer.php:29-34): visit the attachments
     * in query order, sanitize each with the path stored at that moment and
     * count the visits that returned true. The new state and the count are
     * those of `Run`; `Batch.RunCount` says what that count is.
     */
    method SanitizeAll(posts: seq<int>) returns (sanitizedCount: nat, ghost outcomes: seq<Outcome>)
      modifies this
      ensures |outcomes| == |posts|
      ensures State() == Run(host, old(State()), posts, outcomes).1
      ensures sanitizedCount == CountTrue(Run(host, old(State()), posts, outcomes).0)
    {
      ghost var w0 := State();
      sanitizedCount, outcomes := 0, [];
      var i := 0;
      while i < |posts|
        invariant 0 <= i <= |posts| && |outcomes| == i
        invariant State() == Run(host, w0, posts[..i], outcomes).1
        invariant sanitizedCount == CountTrue(Run(host, w0, posts[..i], outcomes).0)
      {
        var wasSanitized, o := VisitNext(w0, posts, i, outcomes);
        Batch.RunStep(Run(host, w0, posts[..i + 1], outcomes + [o]), Run(host, w0, posts[..i], outcomes).0, wasSanitized, State(), sanitizedCount);
        sanitizedCount := if wasSanitized then sanitizedCount + 1 else sanitizedCount;
        outcomes := outcomes + [o];
        i := i + 1;
      }
      Batch.PrefixWhole(posts);
    }

    /**
     * `__invoke` (src/Sanitizer.php:26-36): the loop over the attachments the
     * query returned, then the summary line with the count.
     */
    method Invoke(posts: seq<int>) returns (sanitizedCount: nat, ghost outcomes: seq<Outcome>)
      modifies this
      ensures |outcomes| == |posts|
      ensures var r := Run(host, old(State()), posts, outcomes);
        sanitizedCount == CountTrue(r.0) && State() == r.1.(log := r.1.log + [Summary(sanitizedCount)])
    {
      sanitizedCount, outcomes := SanitizeAll(posts);
      Say(Summary(sanitizedCount));
    }
  }
}
