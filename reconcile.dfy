/**
 * The reconciliation pass as functions on an abstract WordPress site: the
 * attachment records, their metadata, the files on disk, the post content
 * and the console log. The imperative class in module Sanitizer is proved to
 * follow these functions step by step.
 */
module Reconcile {
  import opened Planner
  import SearchReplace

  /** What `wp_generate_attachment_metadata()` returns: an associative array. */
  type Metadata = map<string, string>

  /** The WordPress functions the pass calls and this model does not interpret. */
  datatype Host = Host(
    /** `sanitize_title()`. */
    sanitizeTitle: Slugger,
    /** `wp_get_attachment_url()`, from the attachment ID and its stored path. */
    attachmentUrl: (int, string) -> string,
    /** `wp_generate_attachment_metadata()`, from the ID, the file and the files on disk. */
    generateMetadata: (int, string, set<string>) -> Metadata)

  /** The effects of the pass and the lines it prints, in the order they happen. */
  datatype Event =
    | UpdateAttachedFile(id: int, path: string, ok: bool)
    | UpdateAttachmentMetadata(id: int, meta: Metadata)
    | Rename(from: string, to: string, ok: bool)
    | ReplaceContents(oldUrl: string, newUrl: string)
    /** "Failed updating attachment with ID …", a non-fatal error. */
    | UpdateFailedError(id: int)
    /** "Failed renaming … to …", a non-fatal error. */
    | RenameFailedError(from: string, to: string)
    /** "Sanitized: " followed by the stem of the path, its 'filename' key. */
    | SanitizedLine(stem: string)
    /** "Sanitized N attachments." */
    | Summary(count: nat)

  /** The state of the site the pass reads and changes. */
  datatype World = World(
    /** The attached file (`_wp_attached_file`) of each attachment ID. */
    records: map<int, string>,
    /** The attachment metadata of each attachment ID. */
    metadata: map<int, Metadata>,
    /** The paths at which a file exists on disk. */
    files: set<string>,
    /** The text of the `wp_posts` table. */
    content: string,
    log: seq<Event>)

  /** The answers of the two host calls that can fail: `update_attached_file()` and `rename()`. */
  datatype Outcome = Outcome(updateOk: bool, renameOk: bool)

  /** `get_attached_file()`: the stored path, or `false` (which reads as "") when there is none. */
  function AttachedFile(w: World, id: int): string {
    if id in w.records then w.records[id] else ""
  }

  /** `wp_get_attachment_url()` in the world `w`. */
  function Url(host: Host, w: World, id: int): string {
    host.attachmentUrl(id, AttachedFile(w, id))
  }

  /** Whether `e` is a host effect rather than a printed line. */
  predicate IsEffect(e: Event) {
    e.UpdateAttachedFile? || e.UpdateAttachmentMetadata? || e.Rename? || e.ReplaceContents?
  }

  /** The host effects among `events`, in order. */
  function Effects(events: seq<Event>): seq<Event> {
    if events == [] then []
    else if IsEffect(events[0]) then [events[0]] + Effects(events[1..])
    else Effects(events[1..])
  }

  /** The errors among `events`, in order. */
  function Errors(events: seq<Event>): seq<Event> {
    if events == [] then []
    else if events[0].UpdateFailedError? || events[0].RenameFailedError? then [events[0]] + Errors(events[1..])
    else Errors(events[1..])
  }

  /** What the record update adds to the log: the call, and the error when it failed. */
  function UpdateEvents(id: int, target: string, ok: bool): seq<Event> {
    [UpdateAttachedFile(id, target, ok)] + (if ok then [] else [UpdateFailedError(id)])
  }

  /** Lines 70-72: store the target path; a failure is reported with the ID and does not stop anything. */
  function UpdateStep(w: World, id: int, target: string, ok: bool): World {
    w.(records := if ok then w.records[id := target] else w.records,
       log := w.log + UpdateEvents(id, target, ok))
  }

  /** Lines 73-74: generate metadata for the target path, as the disk is now, and store it. */
  function MetadataStep(host: Host, w: World, id: int, target: string): World {
    var meta := host.generateMetadata(id, target, w.files);
    w.(metadata := w.metadata[id := meta], log := w.log + [UpdateAttachmentMetadata(id, meta)])
  }

  /** Whether a rename the file system answers with `ok` moves the file: a missing file is never moved. */
  predicate Moves(w: World, from: string, ok: bool) {
    ok && from in w.files
  }

  /** What the rename adds to the log: the call, and the error when it failed. */
  function RenameEvents(from: string, to: string, moved: bool): seq<Event> {
    [Rename(from, to, moved)] + (if moved then [] else [RenameFailedError(from, to)])
  }

  /**
   * `renameFile` (lines 88-93): move the file; a failure is reported with both
   * paths and undoes nothing. `ok` is the answer of the file system.
   */
  function RenameStep(w: World, from: string, to: string, ok: bool): World {
    var moved := Moves(w, from, ok);
    w.(files := if moved then w.files - {from} + {to} else w.files,
       log := w.log + RenameEvents(from, to, moved))
  }

  /** `replacePostContents` (lines 95-98): replace the old URL with the new one in the post content. */
  function ReplaceStep(w: World, oldUrl: string, newUrl: string): World {
    w.(content := SearchReplace.ReplacePostContents(w.content, oldUrl, newUrl),
       log := w.log + [ReplaceContents(oldUrl, newUrl)])
  }

  /**
   * Lines 69-79: the change path, run for a planned target. The record is
   * updated when the host accepts it, the metadata is regenerated from the
   * files as they were, the file moves when the rename succeeds, and the URL
   * read before the update is replaced in the content by the URL read after
   * it; the line printed last carries `stem`. `ChangeBySteps` shows that
   * the five steps of the source, in order, produce this world.
   */
  function Change(host: Host, w: World, id: int, attachment: string, target: string, stem: string, o: Outcome): World {
    World(
      if o.updateOk then w.records[id := target] else w.records,
      w.metadata[id := host.generateMetadata(id, target, w.files)],
      if Moves(w, attachment, o.renameOk) then w.files - {attachment} + {target} else w.files,
      SearchReplace.ReplacePostContents(w.content, Url(host, w, id), NewUrl(host, w, id, target, o)),
      w.log + ChangeEvents(host, w, id, attachment, target, stem, o))
  }

  /**
   * `sanitizeAttachmentIfNeeded` (lines 60-83): whether the attachment was
   * sanitized, and the world after it. It reports a change exactly when the
   * stem differs from its slug, whatever the host calls answer, and leaves
   * the world as it was otherwise.
   */
  function Sanitize(host: Host, w: World, id: int, attachment: string, o: Outcome): (r: (bool, World))
    ensures !r.0 ==> r.1 == w
  {
    match Plan(host.sanitizeTitle, attachment)
    case None => (false, w)
    case Some(target) => (true, Change(host, w, id, attachment, target, Stem(attachment), o))
  }

  /**
   * One pass of the loop of `__invoke` (lines 29-33): read the path stored for
   * the attachment at that moment and sanitize it.
   */
  function Visit(host: Host, w: World, id: int, o: Outcome): (bool, World) {
    Sanitize(host, w, id, AttachedFile(w, id), o)
  }

  /** The loop body of `__invoke` as a value, for `Loop`. */
  function Body(host: Host): (World, int, Outcome) -> (bool, World) {
    (v, id, o) => Visit(host, v, id, o)
  }

  /**
   * A loop that visits `posts` in order, each with its own host outcome, and
   * collects what each visit returned.
   */
  function Loop(visit: (World, int, Outcome) -> (bool, World), w: World, posts: seq<int>, outcomes: seq<Outcome>): (r: (seq<bool>, World))
    requires |outcomes| == |posts|
    ensures |r.0| == |posts|
    decreases |posts|
  {
    if posts == [] then ([], w)
    else
      var n := |posts| - 1;
      var (results, w1) := Loop(visit, w, posts[..n], outcomes[..n]);
      var (visited, w2) := visit(w1, posts[n], outcomes[n]);
      (results + [visited], w2)
  }

  /**
   * `__invoke` (lines 26-36) before its summary line: the attachments are
   * visited once each, in query order, each with the path `get_attached_file()`
   * gives at that moment. The result holds what each visit returned.
   */
  function Run(host: Host, w: World, posts: seq<int>, outcomes: seq<Outcome>): (r: (seq<bool>, World))
    requires |outcomes| == |posts|
    ensures |r.0| == |posts|
  {
    Loop(Body(host), w, posts, outcomes)
  }

  /** How many of `results` are true: the value of `$sanitizedCount`. */
  function CountTrue(results: seq<bool>): nat {
    if results == [] then 0 else (if results[0] then 1 else 0) + CountTrue(results[1..])
  }

  // ---------------------------------------------------------------------
  // One attachment
  // ---------------------------------------------------------------------

  /** The URL read after the record update, which later steps do not change. */
  function NewUrl(host: Host, w: World, id: int, target: string, o: Outcome): string {
    host.attachmentUrl(id, if o.updateOk then target else AttachedFile(w, id))
  }

  /** What one change adds to the log, in order. */
  function ChangeEvents(host: Host, w: World, id: int, attachment: string, target: string, stem: string, o: Outcome): seq<Event> {
    UpdateEvents(id, target, o.updateOk) +
    [UpdateAttachmentMetadata(id, host.generateMetadata(id, target, w.files))] +
    RenameEvents(attachment, target, Moves(w, attachment, o.renameOk)) +
    [ReplaceContents(Url(host, w, id), NewUrl(host, w, id, target, o))] +
    [SanitizedLine(stem)]
  }

  /**
   * The five steps of lines 70-79 in source order: record update, metadata,
   * rename, substitution (with the URL read before the update and the URL
   * read after the rename), then the "Sanitized:" line.
   */
  lemma ChangeBySteps(host: Host, w: World, id: int, attachment: string, target: string, stem: string, o: Outcome)
    ensures var w1 := UpdateStep(w, id, target, o.updateOk);
      var w2 := MetadataStep(host, w1, id, target);
      var w3 := RenameStep(w2, attachment, target, o.renameOk);
      var w4 := ReplaceStep(w3, Url(host, w, id), Url(host, w3, id));
      Change(host, w, id, attachment, target, stem, o) == w4.(log := w4.log + [SanitizedLine(stem)])
  {
    var w1 := UpdateStep(w, id, target, o.updateOk);
    var w2 := MetadataStep(host, w1, id, target);
    var w3 := RenameStep(w2, attachment, target, o.renameOk);
    assert AttachedFile(w3, id) == AttachedFile(w1, id);
    assert Url(host, w3, id) == NewUrl(host, w, id, target, o);
    LogAppends(w.log, UpdateEvents(id, target, o.updateOk),
      [UpdateAttachmentMetadata(id, host.generateMetadata(id, target, w.files))],
      RenameEvents(attachment, target, Moves(w, attachment, o.renameOk)),
      [ReplaceContents(Url(host, w, id), NewUrl(host, w, id, target, o))],
      [SanitizedLine(stem)]);
  }

  lemma LogAppends(l: seq<Event>, u: seq<Event>, m: seq<Event>, n: seq<Event>, r: seq<Event>, s: seq<Event>)
    ensures l + u + m + n + r + s == l + (u + m + n + r + s)
  {
  }

  /** The old log is a prefix of the new one, and what follows it is exactly what was appended. */
  lemma SplitLog(l: seq<Event>, e: seq<Event>)
    ensures (l + e)[..|l|] == l && (l + e)[|l|..] == e
  {
  }

  /** The events one change logs include each call and each error that applies. */
  lemma ChangeEventsInclude(host: Host, w: World, id: int, attachment: string, target: string, stem: string, o: Outcome)
    ensures var events, moved := ChangeEvents(host, w, id, attachment, target, stem, o), Moves(w, attachment, o.renameOk);
      UpdateAttachedFile(id, target, o.updateOk) in events &&
      (!o.updateOk ==> UpdateFailedError(id) in events) &&
      Rename(attachment, target, moved) in events &&
      (!moved ==> RenameFailedError(attachment, target) in events)
  {
    var u := UpdateEvents(id, target, o.updateOk);
    var n := RenameEvents(attachment, target, Moves(w, attachment, o.renameOk));
    assert u[0] == UpdateAttachedFile(id, target, o.updateOk);
    assert !o.updateOk ==> u[1] == UpdateFailedError(id);
    assert n[0] == Rename(attachment, target, Moves(w, attachment, o.renameOk));
    assert !Moves(w, attachment, o.renameOk) ==> n[1] == RenameFailedError(attachment, target);
  }

  /** A planned attachment goes down the change path with its planned target. */
  lemma SanitizePlanned(host: Host, w: World, id: int, attachment: string, o: Outcome)
    requires Plan(host.sanitizeTitle, attachment).Some?
    ensures Sanitize(host, w, id, attachment, o) == (true, Change(host, w, id, attachment, Plan(host.sanitizeTitle, attachment).value, Stem(attachment), o))
  {
  }

  /**
   * When the stem is already canonical nothing happens: no record update, no
   * metadata write, no rename, no content substitution and no line printed.
   */
  lemma {:induction false} CanonicalStemChangesNothing(host: Host, w: World, id: int, attachment: string, o: Outcome)
    requires host.sanitizeTitle(Stem(attachment)) == Stem(attachment)
    ensures Sanitize(host, w, id, attachment, o) == (false, w)
  {
  }

  /**
   * On the change path the host effects happen in a fixed order: the record
   * update, then the metadata write, then the rename, then the content
   * substitution, one each; and the only errors are one for a failed record
   * update, then one for a failed rename.
   */
  lemma EffectsInOrder(host: Host, w: World, id: int, attachment: string, target: string, stem: string, o: Outcome)
    ensures var events := Change(host, w, id, attachment, target, stem, o).log[|w.log|..];
      var moved := Moves(w, attachment, o.renameOk);
      Change(host, w, id, attachment, target, stem, o).log[..|w.log|] == w.log &&
      Effects(events) == [UpdateAttachedFile(id, target, o.updateOk),
                          UpdateAttachmentMetadata(id, host.generateMetadata(id, target, w.files)),
                          Rename(attachment, target, moved),
                          ReplaceContents(Url(host, w, id), NewUrl(host, w, id, target, o))] &&
      Errors(events) == (if o.updateOk then [] else [UpdateFailedError(id)]) +
                        (if moved then [] else [RenameFailedError(attachment, target)])
  {
    SplitLog(w.log, ChangeEvents(host, w, id, attachment, target, stem, o));
    FilterChangeEvents(host, w, id, attachment, target, stem, o);
  }

  /** The filters of the events one change logs. */
  lemma FilterChangeEvents(host: Host, w: World, id: int, attachment: string, target: string, stem: string, o: Outcome)
    ensures var events, moved := ChangeEvents(host, w, id, attachment, target, stem, o), Moves(w, attachment, o.renameOk);
      Effects(events) == [UpdateAttachedFile(id, target, o.updateOk),
                          UpdateAttachmentMetadata(id, host.generateMetadata(id, target, w.files)),
                          Rename(attachment, target, moved),
                          ReplaceContents(Url(host, w, id), NewUrl(host, w, id, target, o))] &&
      Errors(events) == (if o.updateOk then [] else [UpdateFailedError(id)]) +
                        (if moved then [] else [RenameFailedError(attachment, target)])
  {
    var moved := Moves(w, attachment, o.renameOk);
    FilterEventShape(UpdateAttachedFile(id, target, o.updateOk),
      if o.updateOk then [] else [UpdateFailedError(id)],
      UpdateAttachmentMetadata(id, host.generateMetadata(id, target, w.files)),
      Rename(attachment, target, moved),
      if moved then [] else [RenameFailedError(attachment, target)],
      ReplaceContents(Url(host, w, id), NewUrl(host, w, id, target, o)),
      SanitizedLine(stem));
  }

  /** The filters of a log shaped as one change's: four effects, at most two errors, one printed line. */
  lemma FilterEventShape(e0: Event, u: seq<Event>, e1: Event, e2: Event, m: seq<Event>, e3: Event, e4: Event)
    requires IsEffect(e0) && IsEffect(e1) && IsEffect(e2) && e3.ReplaceContents? && e4.SanitizedLine?
    requires |u| <= 1 && forall k :: 0 <= k < |u| ==> u[k].UpdateFailedError? || u[k].RenameFailedError?
    requires |m| <= 1 && forall k :: 0 <= k < |m| ==> m[k].UpdateFailedError? || m[k].RenameFailedError?
    ensures Effects([e0] + u + [e1] + ([e2] + m) + [e3] + [e4]) == [e0, e1, e2, e3]
    ensures Errors([e0] + u + [e1] + ([e2] + m) + [e3] + [e4]) == u + m
  {
    var tail := [e3] + [e4];
    var t2 := m + tail;
    var t1 := [e2] + t2;
    var t0 := [e1] + t1;
    var all := u + t0;
    ChangeEventsShape(e0, u, e1, e2, m, e3, e4);
    FilterTail(e3, e4);
    FilterErrors(m, tail);
    FilterCons(e2, t2);
    FilterCons(e1, t1);
    FilterErrors(u, t0);
    FilterCons(e0, all);
  }

  lemma ChangeEventsShape(e0: Event, u: seq<Event>, e1: Event, e2: Event, m: seq<Event>, e3: Event, e4: Event)
    ensures [e0] + u + [e1] + ([e2] + m) + [e3] + [e4] == [e0] + (u + ([e1] + ([e2] + (m + ([e3] + [e4])))))
  {
  }

  /** The filters of a log that starts with `e`. */
  lemma FilterCons(e: Event, rest: seq<Event>)
    ensures Effects([e] + rest) == (if IsEffect(e) then [e] else []) + Effects(rest)
    ensures Errors([e] + rest) == (if e.UpdateFailedError? || e.RenameFailedError? then [e] else []) + Errors(rest)
  {
    assert ([e] + rest)[1..] == rest;
  }

  /** Error lines contribute nothing to the effects and themselves to the errors. */
  lemma FilterErrors(errs: seq<Event>, rest: seq<Event>)
    requires |errs| <= 1 && forall k :: 0 <= k < |errs| ==> errs[k].UpdateFailedError? || errs[k].RenameFailedError?
    ensures Effects(errs + rest) == Effects(rest)
    ensures Errors(errs + rest) == errs + Errors(rest)
  {
    if errs != [] {
      assert errs == [errs[0]];
      FilterCons(errs[0], rest);
    } else {
      assert errs + rest == rest;
    }
  }

  /** The substitution followed by the "Sanitized:" line: one effect, no error. */
  lemma FilterTail(e3: Event, e4: Event)
    requires e3.ReplaceContents? && e4.SanitizedLine?
    ensures Effects([e3] + [e4]) == [e3]
    ensures Errors([e3] + [e4]) == []
  {
    FilterCons(e3, [e4]);
    FilterCons(e4, []);
    assert [e4] + [] == [e4];
  }

  /**
   * A failed `update_attached_file()` is reported with the attachment ID and
   * is not fatal: the metadata is still written, the rename is still
   * attempted, the substitution still runs and the call still reports a
   * change. The record keeps its path, so the URL read after the update is
   * the one read before it and the substitution leaves the content as it was.
   */
  lemma UpdateFailureIsNotFatal(host: Host, w: World, id: int, attachment: string, o: Outcome)
    requires Plan(host.sanitizeTitle, attachment).Some? && !o.updateOk
    ensures var r := Sanitize(host, w, id, attachment, o);
      var target := Plan(host.sanitizeTitle, attachment).value;
      r.0 && r.1.records == w.records && id in r.1.metadata &&
      UpdateFailedError(id) in r.1.log[|w.log|..] &&
      Rename(attachment, target, Moves(w, attachment, o.renameOk)) in r.1.log[|w.log|..] &&
      r.1.files == (if Moves(w, attachment, o.renameOk) then w.files - {attachment} + {target} else w.files) &&
      r.1.content == w.content
  {
    var target := Plan(host.sanitizeTitle, attachment).value;
    SanitizePlanned(host, w, id, attachment, o);
    UpdateFailureInChange(host, w, id, attachment, target, Stem(attachment), o);
  }

  lemma UpdateFailureInChange(host: Host, w: World, id: int, attachment: string, target: string, stem: string, o: Outcome)
    requires !o.updateOk
    ensures var c := Change(host, w, id, attachment, target, stem, o);
      c.records == w.records && id in c.metadata &&
      UpdateFailedError(id) in c.log[|w.log|..] &&
      Rename(attachment, target, Moves(w, attachment, o.renameOk)) in c.log[|w.log|..] &&
      c.files == (if Moves(w, attachment, o.renameOk) then w.files - {attachment} + {target} else w.files) &&
      c.content == w.content
  {
    SplitLog(w.log, ChangeEvents(host, w, id, attachment, target, stem, o));
    ChangeEventsInclude(host, w, id, attachment, target, stem, o);
    SearchReplace.ReplaceWithItself(w.content, Url(host, w, id));
  }

  /**
   * A failed rename is reported with both paths and does not undo the record
   * update: the record points at the target while the file stays where it
   * was.
   */
  lemma RenameFailureKeepsRecordUpdate(host: Host, w: World, id: int, attachment: string, o: Outcome)
    requires Plan(host.sanitizeTitle, attachment).Some? && o.updateOk
    requires !o.renameOk || attachment !in w.files
    ensures var r := Sanitize(host, w, id, attachment, o);
      var target := Plan(host.sanitizeTitle, attachment).value;
      r.0 && AttachedFile(r.1, id) == target && r.1.files == w.files &&
      RenameFailedError(attachment, target) in r.1.log[|w.log|..]
  {
    var target := Plan(host.sanitizeTitle, attachment).value;
    SanitizePlanned(host, w, id, attachment, o);
    RenameFailureInChange(host, w, id, attachment, target, Stem(attachment), o);
  }

  lemma RenameFailureInChange(host: Host, w: World, id: int, attachment: string, target: string, stem: string, o: Outcome)
    requires o.updateOk && !Moves(w, attachment, o.renameOk)
    ensures var c := Change(host, w, id, attachment, target, stem, o);
      AttachedFile(c, id) == target && c.files == w.files &&
      RenameFailedError(attachment, target) in c.log[|w.log|..]
  {
    SplitLog(w.log, ChangeEvents(host, w, id, attachment, target, stem, o));
    ChangeEventsInclude(host, w, id, attachment, target, stem, o);
  }

  /**
   * When both host calls succeed and the file is on disk, the three places
   * agree afterwards: the record holds the target path, the file is at the
   * target and no longer at the original path, and the post content has had
   * the URL read before the update replaced by the URL read after it.
   */
  lemma SuccessfulChangeIsConsistent(host: Host, w: World, id: int, attachment: string, o: Outcome)
    requires Plan(host.sanitizeTitle, attachment).Some? && o.updateOk && o.renameOk && attachment in w.files
    requires '/' !in Slug(host.sanitizeTitle, attachment)
    ensures var r := Sanitize(host, w, id, attachment, o);
      var target := Plan(host.sanitizeTitle, attachment).value;
      r.0 && AttachedFile(r.1, id) == target &&
      target in r.1.files && attachment !in r.1.files &&
      r.1.content == SearchReplace.ReplaceAll(w.content, host.attachmentUrl(id, AttachedFile(w, id)), host.attachmentUrl(id, target))
  {
    var target := Plan(host.sanitizeTitle, attachment).value;
    TargetDiffersFromPath(host.sanitizeTitle, attachment);
    SanitizePlanned(host, w, id, attachment, o);
    SuccessInChange(host, w, id, attachment, target, Stem(attachment), o);
  }

  lemma SuccessInChange(host: Host, w: World, id: int, attachment: string, target: string, stem: string, o: Outcome)
    requires o.updateOk && o.renameOk && attachment in w.files && target != attachment
    ensures var c := Change(host, w, id, attachment, target, stem, o);
      AttachedFile(c, id) == target && target in c.files && attachment !in c.files &&
      c.content == SearchReplace.ReplaceAll(w.content, host.attachmentUrl(id, AttachedFile(w, id)), host.attachmentUrl(id, target))
  {
  }

  /** Sanitizing one attachment leaves the record of every other attachment as it was. */
  lemma SanitizeKeepsOtherRecords(host: Host, w: World, id: int, attachment: string, o: Outcome, other: int)
    requires other != id
    ensures AttachedFile(Sanitize(host, w, id, attachment, o).1, other) == AttachedFile(w, other)
  {
  }
}
