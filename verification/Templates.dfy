/**
 * Upgrade of the stock prompt templates. A manifest remembers the hash of what the daemon
 * wrote under each name; a file that no longer has that hash is the user's and left alone.
 */
module Templates {
  import opened Common

  datatype Template = Template(name: string, content: string)

  datatype Action = Written | Updated | UserModified | PreManifest

  /** The prompts directory, and the manifest: file contents and hashes by name. */
  datatype Disk = Disk(files: map<string, string>, manifest: map<string, string>)

  type Hash = string -> string

  // ----- one template -----

  /** A file that sync must not touch: untracked, or not what the manifest says was written. */
  predicate Foreign(d: Disk, n: string, hash: Hash) {
    n in d.files && (n !in d.manifest || hash(d.files[n]) != d.manifest[n])
  }

  function ActionFor(d: Disk, n: string, hash: Hash): Action {
    if n !in d.files then Written
    else if n !in d.manifest then PreManifest
    else if hash(d.files[n]) == d.manifest[n] then Updated else UserModified
  }

  function Write(d: Disk, t: Template, hash: Hash): Disk {
    Disk(d.files[t.name := t.content], d.manifest[t.name := hash(t.content)])
  }

  function SyncOne(d: Disk, t: Template, hash: Hash): Disk {
    if Foreign(d, t.name, hash) then d else Write(d, t, hash)
  }

  // ----- all templates -----

  function Synced(d: Disk, defaults: seq<Template>, hash: Hash): Disk {
    if defaults == [] then d
    else SyncOne(Synced(d, defaults[..|defaults| - 1], hash), defaults[|defaults| - 1], hash)
  }

  /** The last default of a name; a list may repeat a name. */
  function LastDefault(defaults: seq<Template>, n: string): (c: Option<string>)
    ensures c.None? <==> forall i :: 0 <= i < |defaults| ==> defaults[i].name != n
    ensures c.Some? ==> Template(n, c.value) in defaults
  {
    if defaults == [] then None
    else
      var last := defaults[|defaults| - 1];
      if last.name == n then Some(last.content) else LastDefault(defaults[..|defaults| - 1], n)
  }

  /**
   * A sync leaves under each name its last default and that default's hash, except where the
   * file was foreign or there is no default: there it changes nothing.
   */
  lemma {:induction false} SyncOutcome(d: Disk, defaults: seq<Template>, hash: Hash, n: string)
    ensures var e, last := Synced(d, defaults, hash), LastDefault(defaults, n);
            && (last.None? || Foreign(d, n, hash) ==> SameAt(d, e, n))
            && (last.Some? && !Foreign(d, n, hash) ==> HoldsAt(e, n, last.value, hash(last.value)))
  {
    if defaults != [] {
      SyncOutcome(d, defaults[..|defaults| - 1], hash, n);
    }
  }

  /**
   * What a report tells: written means there was no file, updated that it was replaced, both
   * that the default and its hash are there now; the other two that file and manifest are as
   * they were, because the file was never the daemon's, or no longer has the hash it wrote.
   */
  lemma ReportTells(d: Disk, t: Template, hash: Hash)
    ensures var e, action := SyncOne(d, t, hash), ActionFor(d, t.name, hash);
            && (action == Written <==> t.name !in d.files)
            && (action == PreManifest <==> t.name in d.files && t.name !in d.manifest)
            && (action == UserModified ==> e == d && hash(d.files[t.name]) != d.manifest[t.name])
            && (action == PreManifest ==> e == d)
            && (action in {Written, Updated} ==> HoldsAt(e, t.name, t.content, hash(t.content)))
            && (action == Updated ==> t.name in d.manifest && hash(d.files[t.name]) == d.manifest[t.name])
            && forall n: string :: n != t.name ==> SameAt(d, e, n)
  {
  }

  predicate SameAt(d: Disk, e: Disk, n: string) {
    && (n in e.files <==> n in d.files) && (n in d.files ==> e.files[n] == d.files[n])
    && (n in e.manifest <==> n in d.manifest) && (n in d.manifest ==> e.manifest[n] == d.manifest[n])
  }

  predicate HoldsAt(d: Disk, n: string, content: string, h: string) {
    n in d.files && d.files[n] == content && n in d.manifest && d.manifest[n] == h
  }

  /** Repeating a completed sync changes nothing, even if names repeat among the defaults. */
  lemma SyncTwice(d: Disk, defaults: seq<Template>, hash: Hash)
    ensures var once := Synced(d, defaults, hash);
            Synced(once, defaults, hash) == once
  {
    var once := Synced(d, defaults, hash);
    var twice := Synced(once, defaults, hash);
    forall n: string
      ensures SameAt(once, twice, n)
    {
      SyncOutcome(d, defaults, hash, n);
      SyncOutcome(once, defaults, hash, n);
    }
    hide Synced;
    SameEverywhere(once, twice);
  }

  lemma SameEverywhere(d: Disk, e: Disk)
    requires forall n: string :: SameAt(d, e, n)
    ensures d == e
  {
    forall n: string
      ensures (n in e.files <==> n in d.files) && (n in d.files ==> e.files[n] == d.files[n])
      ensures (n in e.manifest <==> n in d.manifest) && (n in d.manifest ==> e.manifest[n] == d.manifest[n])
    {
      assert SameAt(d, e, n);
    }
    assert d.files == e.files;
    assert d.manifest == e.manifest;
  }

  // ----- the sync, in place -----

  class Prompts {
    const hash: Hash
    var files: map<string, string>
    var manifest: map<string, string>

    constructor (hash: Hash, files: map<string, string>)
      ensures this.hash == hash && this.files == files && manifest == map[]
    {
      this.hash, this.files, manifest := hash, files, map[];
    }

    method WriteTemplate(t: Template, loaded: map<string, string>) returns (m: map<string, string>)
      modifies this`files
      ensures Disk(files, m) == Write(Disk(old(files), loaded), t, hash)
    {
      files := files[t.name := t.content];
      m := loaded[t.name := hash(t.content)];
    }

    method SyncOneTemplate(t: Template, loaded: map<string, string>) returns (action: Action, m: map<string, string>)
      modifies this`files
      ensures Disk(files, m) == SyncOne(Disk(old(files), loaded), t, hash)
      ensures action == ActionFor(Disk(old(files), loaded), t.name, hash)
    {
      m := loaded;
      if t.name !in files {
        m := WriteTemplate(t, m);
        action := Written;
      } else if t.name !in m {
        action := PreManifest;
      } else if hash(files[t.name]) == m[t.name] {
        m := WriteTemplate(t, m);
        action := Updated;
      } else {
        action := UserModified;
      }
    }

    /**
     * Syncs all defaults. If `stop` is given the daemon stops after that many templates and
     * never saves the manifest.
     */
    method SyncTemplates(defaults: seq<Template>, stop: Option<nat>) returns (report: seq<(string, Action)>)
      requires stop.Some? ==> stop.value <= |defaults|
      modifies this
      ensures var before, through := Disk(old(files), old(manifest)), stop.GetOr(|defaults|);
              && files == Synced(before, defaults[..through], hash).files
              && manifest == (if stop.Some? then old(manifest) else Synced(before, defaults, hash).manifest)
              && |report| == through
              && forall i :: 0 <= i < through ==>
                   var n := defaults[i].name;
                   report[i] == (n, ActionFor(Synced(before, defaults[..i], hash), n, hash))
    {
      ghost var before := Disk(files, manifest);
      var loaded := manifest;
      report := [];
      hide SyncOne, ActionFor;
      for i := 0 to stop.GetOr(|defaults|)
        invariant manifest == old(manifest) && |report| == i
        invariant Disk(files, loaded) == Synced(before, defaults[..i], hash)
        invariant forall j :: 0 <= j < i ==>
          report[j] == (defaults[j].name, ActionFor(Synced(before, defaults[..j], hash), defaults[j].name, hash))
      {
        var action;
        assert defaults[..i + 1][..i] == defaults[..i];
        action, loaded := SyncOneTemplate(defaults[i], loaded);
        report := report + [(defaults[i].name, action)];
      }
      if stop.None? {
        assert defaults[..|defaults|] == defaults;
        manifest := loaded;
      }
    }
  }

  // ----- runs of syncs, crashes and user changes -----

  datatype Step =
    | Sync(defaults: seq<Template>)
    | Interrupted(defaults: seq<Template>)
    | Edit(name: string, content: string)
    | Delete(name: string)

  /** `Interrupted` holds just the defaults that the sync got to before it stopped. */
  function Next(d: Disk, step: Step, hash: Hash): Disk {
    match step
    case Sync(defaults) => Synced(d, defaults, hash)
    case Interrupted(defaults) => d.(files := Synced(d, defaults, hash).files)
    case Edit(n, content) => d.(files := d.files[n := content])
    case Delete(n) => d.(files := d.files - {n})
  }

  function Run(d: Disk, steps: seq<Step>, hash: Hash): Disk {
    if steps == [] then d else Next(Run(d, steps[..|steps| - 1], hash), steps[|steps| - 1], hash)
  }

  /** The step at `i` is a finished sync that wrote `content` under `n`, where no foreign file was in its way. */
  predicate Wrote(d: Disk, steps: seq<Step>, i: nat, n: string, content: string, hash: Hash)
    requires i < |steps|
  {
    && steps[i].Sync? && LastDefault(steps[i].defaults, n) == Some(content)
    && !Foreign(Run(d, steps[..i], hash), n, hash)
  }

  /** What such a step writes is what is there after it. */
  lemma WroteIsThere(d: Disk, steps: seq<Step>, i: nat, n: string, content: string, hash: Hash)
    requires i < |steps| && Wrote(d, steps, i, n, content, hash)
    ensures HoldsAt(Run(d, steps[..i + 1], hash), n, content, hash(content))
  {
    assert steps[..i + 1][..i] == steps[..i];
    SyncOutcome(Run(d, steps[..i], hash), steps[i].defaults, hash, n);
  }

  /** Every hash in the manifest is that of a content that a finished sync wrote under that name. */
  lemma {:induction false} ManifestIsOwn(files: map<string, string>, steps: seq<Step>, hash: Hash, n: string)
      returns (i: nat, content: string)
    requires n in Run(Disk(files, map[]), steps, hash).manifest
    ensures i < |steps| && Wrote(Disk(files, map[]), steps, i, n, content, hash)
    ensures hash(content) == Run(Disk(files, map[]), steps, hash).manifest[n]
  {
    assert steps != [];
    var front, step := steps[..|steps| - 1], steps[|steps| - 1];
    var d := Run(Disk(files, map[]), front, hash);
    var written := if step.Sync? then LastDefault(step.defaults, n) else None;
    if step.Sync? {
      SyncOutcome(d, step.defaults, hash, n);
    }
    if written.Some? && !Foreign(d, n, hash) {
      i, content := |steps| - 1, written.value;
    } else {
      i, content := ManifestIsOwn(files, front, hash, n);
      assert steps[..i] == front[..i];
    }
  }

  /**
   * Whatever a sync, finished or interrupted, overwrites has the hash of a content that a
   * finished sync wrote under that name before, in any run from an empty manifest.
   */
  lemma OverwritesOnlyItsOwn(files: map<string, string>, steps: seq<Step>, step: Step, hash: Hash, n: string)
    requires step.Sync? || step.Interrupted?
    requires n in Run(Disk(files, map[]), steps, hash).files
    ensures var d := Run(Disk(files, map[]), steps, hash);
            var after := Next(d, step, hash).files;
            && n in after
            && (after[n] != d.files[n] ==>
                  exists i, own :: 0 <= i < |steps| && Wrote(Disk(files, map[]), steps, i, n, own, hash) &&
                    hash(own) == hash(d.files[n]))
  {
    var d := Run(Disk(files, map[]), steps, hash);
    SyncOutcome(d, step.defaults, hash, n);
    if Next(d, step, hash).files[n] != d.files[n] {
      var i, own := ManifestIsOwn(files, steps, hash, n);
      hide Wrote, Run;
      assert Wrote(Disk(files, map[]), steps, i, n, own, hash);
    }
  }

  predicate Touches(step: Step, n: string) {
    (step.Edit? || step.Delete?) && step.name == n
  }

  /** A foreign file stays as it is, and foreign, until the user changes it. */
  lemma {:induction false} ForeignStays(d: Disk, steps: seq<Step>, hash: Hash, n: string)
    requires Foreign(d, n, hash)
    requires forall i :: 0 <= i < |steps| ==> !Touches(steps[i], n)
    ensures SameAt(d, Run(d, steps, hash), n)
  {
    if steps != [] {
      var front, step := steps[..|steps| - 1], steps[|steps| - 1];
      ForeignStays(d, front, hash, n);
      var e := Run(d, front, hash);
      if step.Sync? || step.Interrupted? {
        SyncOutcome(e, step.defaults, hash, n);
      }
    }
  }

  /** What the user last put under `n`. */
  function LastEdit(content: string, steps: seq<Step>, n: string): string {
    if steps == [] then content
    else
      var step := steps[|steps| - 1];
      if step.Edit? && step.name == n then step.content else LastEdit(content, steps[..|steps| - 1], n)
  }

  /** A file that was there before the manifest keeps the user's content, edited or not, until deleted. */
  lemma {:induction false} UntrackedIsTheUsers(d: Disk, steps: seq<Step>, hash: Hash, n: string)
    requires n in d.files && n !in d.manifest && Delete(n) !in steps
    ensures var e := Run(d, steps, hash);
            n !in e.manifest && n in e.files && e.files[n] == LastEdit(d.files[n], steps, n)
  {
    if steps != [] {
      var front, step := steps[..|steps| - 1], steps[|steps| - 1];
      assert step in steps;
      UntrackedIsTheUsers(d, front, hash, n);
      if step.Sync? || step.Interrupted? {
        SyncOutcome(Run(d, front, hash), step.defaults, hash, n);
      }
    }
  }

  /**
   * A template written by a sync that never saved its manifest is out of sync's reach from
   * then on, unless the old manifest has its hash already.
   */
  lemma InterruptedWriteIsAbandoned(d: Disk, defaults: seq<Template>, hash: Hash, n: string)
    requires LastDefault(defaults, n).Some? && !Foreign(d, n, hash)
    ensures var e, content := Next(d, Interrupted(defaults), hash), LastDefault(defaults, n).value;
            && n in e.files && e.files[n] == content
            && (Foreign(e, n, hash) <==> n !in d.manifest || hash(content) != d.manifest[n])
  {
    SyncOutcome(d, defaults, hash, n);
  }
}
